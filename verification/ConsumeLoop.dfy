/**
 * `StreamConsumerService.consumeLoop`: the nested retry and poll loops around one run's marker,
 * against an arbitrary environment that answers every call the loop makes.
 */
module ConsumeLoop {
  import opened Prelude
  import opened Tables
  import Lifecycle

  datatype Frame =
    /**
     * An envelope; the status frame every subscription opens with; snapshots, other statuses and
     * ordinary inline errors.
     */
    | EnvelopeFrame(envelope: Envelope, fate: Fate)
    | OpenedFrame(fate: Fate)
    | OtherFrame(fate: Fate)
    | CompactedFrame

  /**
   * What handling a frame meets: whether its transaction commits; if so, the seqs of the events it
   * emitted and the mark for the terminal session state one of them reports, if any; and whether a
   * later call throws.
   */
  datatype Fate = Fate(
    commits: bool, seqs: seq<nat>, terminal: Option<Lifecycle.Mark>, throwsLater: bool, errorLooksCompacted: bool)

  datatype Ending = Ended | Failed(compacted: bool)

  datatype Subscription = Subscription(frames: seq<Frame>, ending: Ending)

  /** One `getSession` poll: it may fail, its snapshot may not commit, and it may show a terminal state. */
  datatype PollAnswer = PollAnswer(
    fails: bool, fate: Fate, terminalState: Option<Lifecycle.Mark>, markThrows: bool, emitThrows: bool)

  datatype Environment = Environment(
    subscribe: (nat, nat) -> Subscription,
    subscribeThrows: nat -> bool,
    poll: nat -> PollAnswer,
    stop: nat -> bool,
    gapEmitThrows: bool,
    lastMarkThrows: bool)

  function EnvelopesIn(fs: seq<Frame>): seq<Envelope>
    decreases |fs|
  {
    if fs == [] then []
    else EnvelopesIn(fs[..|fs| - 1]) + if fs[|fs| - 1].EnvelopeFrame? then [fs[|fs| - 1].envelope] else []
  }

  /** Subscribing after an ordinal replays the history from there: a prefix of it arrives, in order. */
  ghost predicate Honest(env: Environment, history: seq<Envelope>) {
    forall n: nat, after: nat :: after <= |history| ==> EnvelopesIn(env.subscribe(n, after).frames) <= history[after..]
  }

  // ---- What the environment reports -----------------------------------------------------------

  predicate FrameSays(f: Frame, m: Lifecycle.Mark) { !f.CompactedFrame? && f.fate.terminal == Some(m) }

  ghost predicate SubscriptionSays(sub: Subscription, m: Lifecycle.Mark) {
    exists i :: 0 <= i < |sub.frames| && FrameSays(sub.frames[i], m)
  }

  predicate PollSays(a: PollAnswer, m: Lifecycle.Mark) { a.fate.terminal == Some(m) || a.terminalState == Some(m) }

  /** Some frame or some poll reports the terminal state that this mark records. */
  ghost predicate ReportedBy(env: Environment, m: Lifecycle.Mark) {
    || (exists n: nat, after: nat :: SubscriptionSays(env.subscribe(n, after), m))
    || (exists n: nat :: PollSays(env.poll(n), m))
  }

  /** How the run was finalized, if at all: as before, or as reported. */
  ghost predicate AsReported(env: Environment, before: Option<Lifecycle.Mark>, after: Option<Lifecycle.Mark>) {
    after == before || (after.Some? && ReportedBy(env, after.value))
  }

  /** A `stop()` or a shutdown happens somewhere. */
  ghost predicate Stopped(env: Environment) { exists tick: nat :: env.stop(tick) }

  /** The mutable marker of one active stream; `ticks` counts the points where a stop can be noticed. */
  class ActiveStream {
    var aborted: bool
    var finalized: bool
    var connected: bool
    var envelopeOrdinal: nat
    var lastProcessedSeq: nat
    var historyGap: bool
    /** The mark the run was finalized with. */
    var finalizedAs: Option<Lifecycle.Mark>
    var ticks: nat

    constructor (ordinal: nat, resumeFromSeq: nat)
      ensures !aborted && !finalized && !connected && !historyGap && finalizedAs.None?
      ensures envelopeOrdinal == ordinal && lastProcessedSeq == resumeFromSeq
    {
      aborted, finalized, connected, historyGap, finalizedAs := false, false, false, false, None;
      envelopeOrdinal, lastProcessedSeq, ticks := ordinal, resumeFromSeq, 0;
    }

    /** A `stop()` or a shutdown may have landed while the loop was waiting. */
    method Observe(env: Environment)
      modifies this`aborted, this`ticks
      ensures aborted == (old(aborted) || env.stop(old(ticks)))
    {
      aborted := aborted || env.stop(ticks);
      ticks := ticks + 1;
    }

    /** `finalizeRun`: the flags are set before the fallible status write. */
    method FinalizeRun(mark: Lifecycle.Mark, markThrows: bool) returns (threw: bool)
      modifies this`finalized, this`aborted, this`finalizedAs
      ensures finalized && aborted == (old(aborted) || !old(finalized))
      ensures finalizedAs == if old(finalized) then old(finalizedAs) else Some(mark)
      ensures threw == (!old(finalized) && markThrows)
    {
      if finalized { return false; }
      finalized, aborted, finalizedAs := true, true, Some(mark);
      return markThrows;
    }

    /** The processed mark is a running maximum. */
    method NoteProcessed(seqs: seq<nat>)
      modifies this`lastProcessedSeq
      ensures old(lastProcessedSeq) <= lastProcessedSeq && forall n :: n in seqs ==> n <= lastProcessedSeq
      ensures lastProcessedSeq == old(lastProcessedSeq) || lastProcessedSeq in seqs
    {
      for i := 0 to |seqs|
        invariant old(lastProcessedSeq) <= lastProcessedSeq && forall k :: 0 <= k < i ==> seqs[k] <= lastProcessedSeq
        invariant lastProcessedSeq == old(lastProcessedSeq) || lastProcessedSeq in seqs
      {
        if seqs[i] > lastProcessedSeq { lastProcessedSeq := seqs[i]; }
      }
    }

    /**
     * `handleRawEventInner`: an opened frame connects the marker; the ordinal and the processed mark
     * move only once the transaction has committed, the ordinal only for an envelope.
     */
    method HandleRawEvent(frame: Frame) returns (threw: bool)
      requires !frame.CompactedFrame?
      modifies this`finalized, this`aborted, this`finalizedAs, this`connected, this`envelopeOrdinal, this`lastProcessedSeq
      ensures connected == (old(connected) || frame.OpenedFrame?)
      ensures envelopeOrdinal == old(envelopeOrdinal) + if frame.fate.commits && frame.EnvelopeFrame? then 1 else 0
      ensures old(lastProcessedSeq) <= lastProcessedSeq
      ensures frame.fate.commits ==> forall n :: n in frame.fate.seqs ==> n <= lastProcessedSeq
      ensures lastProcessedSeq == old(lastProcessedSeq) || (frame.fate.commits && lastProcessedSeq in frame.fate.seqs)
      ensures !frame.fate.commits ==> threw && finalized == old(finalized) && aborted == old(aborted)
      ensures finalized == (old(finalized) || (frame.fate.commits && frame.fate.terminal.Some?))
      ensures finalized && !old(finalized) ==> finalizedAs == frame.fate.terminal && aborted
      ensures finalized == old(finalized) ==> aborted == old(aborted) && finalizedAs == old(finalizedAs)
      ensures frame.fate.commits && !finalized ==> threw == frame.fate.throwsLater
      ensures finalizedAs == old(finalizedAs) || (finalizedAs.Some? && FrameSays(frame, finalizedAs.value))
      ensures old(aborted) ==> aborted
      ensures old(finalized) ==> finalized
    {
      if frame.OpenedFrame? { connected := true; }
      if !frame.fate.commits { return true; }
      envelopeOrdinal := envelopeOrdinal + if frame.EnvelopeFrame? then 1 else 0;
      NoteProcessed(frame.fate.seqs);
      if frame.fate.terminal.Some? {
        threw := FinalizeRun(frame.fate.terminal.value, frame.fate.throwsLater);
      } else {
        threw := frame.fate.throwsLater;
      }
    }
  }

  datatype Outcome = Return | Gap | Retry

  /** Everything stored so far is the stretch of history between where the loop started and the ordinal. */
  ghost predicate Stored(history: seq<Envelope>, start: nat, ordinal: nat, stored: seq<Envelope>) {
    start <= ordinal <= |history| && stored == history[start..ordinal]
  }

  lemma {:induction false} NextEnvelope(history: seq<Envelope>, after: nat, fs: seq<Frame>, i: nat)
    requires after <= |history| && EnvelopesIn(fs) <= history[after..] && i < |fs|
    ensures |EnvelopesIn(fs[..i])| <= |EnvelopesIn(fs)|
    ensures fs[i].EnvelopeFrame? ==>
              var k := after + |EnvelopesIn(fs[..i])|;
              k < |history| && fs[i].envelope == history[k] && |EnvelopesIn(fs[..i + 1])| == |EnvelopesIn(fs[..i])| + 1
    ensures !fs[i].EnvelopeFrame? ==> EnvelopesIn(fs[..i + 1]) == EnvelopesIn(fs[..i])
  {
    EnvelopesPrefix(fs, i + 1);
    assert fs[..i + 1][..i] == fs[..i];
    var es := EnvelopesIn(fs[..i + 1]);
    assert es <= history[after..];
    if fs[i].EnvelopeFrame? {
      assert es[|EnvelopesIn(fs[..i])|] == fs[i].envelope;
    }
  }

  lemma {:induction false} EnvelopesPrefix(fs: seq<Frame>, i: nat)
    requires i <= |fs|
    ensures EnvelopesIn(fs[..i]) <= EnvelopesIn(fs)
    decreases |fs|
  {
    if i == |fs| {
      assert fs[..i] == fs;
    } else {
      assert fs[..|fs| - 1][..i] == fs[..i];
      EnvelopesPrefix(fs[..|fs| - 1], i);
    }
  }

  /** The first k frames were handled and their transactions committed. */
  ghost predicate Committed(fs: seq<Frame>, k: nat) {
    k <= |fs| && forall i :: 0 <= i < k ==> !fs[i].CompactedFrame? && fs[i].fate.commits
  }

  /** k frames of a subscription read: everything they hold is stored, and the ordinal has moved over it. */
  ghost predicate ReadSoFar(history: seq<Envelope>, start: nat, first: nat, fs: seq<Frame>, k: nat, ordinal: nat,
      stored: seq<Envelope>) {
    Stored(history, start, ordinal, stored) && Committed(fs, k) && ordinal == first + |EnvelopesIn(fs[..k])|
  }

  /** What a committed frame adds. */
  function Held(frame: Frame): seq<Envelope> { if frame.EnvelopeFrame? then [frame.envelope] else [] }

  /** The envelopes of a subscription that replays history from `first` on are stored as that stretch of it. */
  lemma {:induction false} ReadIsStretch(history: seq<Envelope>, start: nat, first: nat, fs: seq<Frame>, k: nat,
      stored: seq<Envelope>)
    requires Stored(history, start, first, stored) && Committed(fs, k) && EnvelopesIn(fs) <= history[first..]
    ensures var es := EnvelopesIn(fs[..k]); ReadSoFar(history, start, first, fs, k, first + |es|, stored + es)
  {
    var es := EnvelopesIn(fs[..k]);
    EnvelopesPrefix(fs, k);
    Stretch(history, start, first, es);
  }

  lemma {:induction false} OneMoreHeld(fs: seq<Frame>, k: nat, stored: seq<Envelope>)
    requires k < |fs|
    ensures stored + EnvelopesIn(fs[..k + 1]) == (stored + EnvelopesIn(fs[..k])) + Held(fs[k])
  {
    assert fs[..k + 1][..k] == fs[..k];
  }

  // ---- Why a subscription is read no further --------------------------------------------------

  predicate Aborts(f: Frame) { f.CompactedFrame? || !f.fate.commits }
  predicate ThrowsLater(f: Frame) { !f.CompactedFrame? && f.fate.throwsLater }

  /** After k frames there are no more, or the next one does not commit, or the last one threw after its commit. */
  ghost predicate StopsAt(fs: seq<Frame>, k: nat) {
    k <= |fs| && (k == |fs| || Aborts(fs[k]) || (k > 0 && ThrowsLater(fs[k - 1])))
  }

  /** What stopped it there says that the history asked for is gone. */
  ghost predicate Gapped(sub: Subscription, k: nat)
    requires StopsAt(sub.frames, k)
  {
    if k > 0 && ThrowsLater(sub.frames[k - 1]) then sub.frames[k - 1].fate.errorLooksCompacted
    else if k < |sub.frames| then sub.frames[k].CompactedFrame? || sub.frames[k].fate.errorLooksCompacted
    else sub.ending.Failed? && sub.ending.compacted
  }

  /** The frame itself ends the subscription, as a gap or not. */
  predicate Ends(f: Frame, gap: bool) {
    (Aborts(f) || ThrowsLater(f)) && gap == (f.CompactedFrame? || f.fate.errorLooksCompacted)
  }

  lemma {:induction false} EndsThere(sub: Subscription, k: nat, gap: bool)
    requires k < |sub.frames| && Ends(sub.frames[k], gap) && (k > 0 ==> !ThrowsLater(sub.frames[k - 1]))
    ensures var k' := if Aborts(sub.frames[k]) then k else k + 1;
      StopsAt(sub.frames, k') && (gap <==> Gapped(sub, k'))
  {}

  lemma {:induction false} FruitfulOneMore(fs: seq<Frame>, k: nat)
    requires k < |fs|
    ensures Fruitful(fs, k + 1) <==> Fruitful(fs, k) || (fs[k].EnvelopeFrame? && !ThrowsLater(fs[k]))
  {
    if Fruitful(fs, k) {
      var i :| 0 <= i < k && fs[i].EnvelopeFrame? && !ThrowsLater(fs[i]);
      assert i < k + 1;
    }
  }

  /** Some frame read was an envelope handled to the end: only that resets the retry budget. */
  ghost predicate Fruitful(fs: seq<Frame>, k: nat) {
    exists i :: 0 <= i < k <= |fs| && fs[i].EnvelopeFrame? && !ThrowsLater(fs[i])
  }

  /** One frame: whether its transaction committed, and how the subscription ends if it ends here. */
  method HandleFrame(env: Environment, marker: ActiveStream, frame: Frame)
    returns (committed: bool, exit: Option<Outcome>)
    modifies marker`aborted, marker`finalized, marker`finalizedAs, marker`connected, marker`envelopeOrdinal,
      marker`lastProcessedSeq, marker`ticks
    ensures committed ==> !frame.CompactedFrame? && frame.fate.commits
    ensures marker.envelopeOrdinal == old(marker.envelopeOrdinal) + if committed then |Held(frame)| else 0
    ensures exit.None? ==> committed && !ThrowsLater(frame)
    ensures exit.Some? && !exit.value.Return? ==> committed == !Aborts(frame) && Ends(frame, exit.value.Gap?)
    ensures exit.Some? ==> (exit.value.Return? <==> marker.aborted || marker.finalized)
    ensures marker.aborted ==> old(marker.aborted) || marker.finalized || Stopped(env)
    ensures marker.finalized ==> old(marker.finalized) || marker.finalizedAs.Some?
    ensures exit.None? ==> !marker.aborted && !marker.finalized
    ensures exit != Some(Return) ==> marker.finalizedAs == old(marker.finalizedAs)
    ensures marker.finalizedAs == old(marker.finalizedAs)
         || (marker.finalizedAs.Some? && FrameSays(frame, marker.finalizedAs.value))
  {
    marker.Observe(env);
    if marker.aborted { return false, Some(Return); }
    if frame.CompactedFrame? {
      marker.connected := false;
      marker.Observe(env);
      return false, Some(if marker.finalized || marker.aborted then Return else Gap);
    }
    var threw := marker.HandleRawEvent(frame);
    committed := frame.fate.commits;
    if threw {
      marker.connected := false;
      marker.Observe(env);
      exit := Some(if marker.finalized || marker.aborted then Return else if frame.fate.errorLooksCompacted then Gap else Retry);
    } else {
      exit := if marker.finalized then Some(Return) else None;
    }
  }

  /** The frames of a subscription, one after another, until one of them ends it or there are no more. */
  method ReadFrames(env: Environment, marker: ActiveStream, sub: Subscription, stored: seq<Envelope>, retries: nat)
    returns (stored': seq<Envelope>, retries': nat, exit: Option<Outcome>, read: nat)
    modifies marker`aborted, marker`finalized, marker`finalizedAs, marker`connected, marker`envelopeOrdinal,
      marker`lastProcessedSeq, marker`ticks
    ensures Committed(sub.frames, read) && stored' == stored + EnvelopesIn(sub.frames[..read])
    ensures marker.envelopeOrdinal == old(marker.envelopeOrdinal) + |EnvelopesIn(sub.frames[..read])|
    ensures exit.None? ==> read == |sub.frames| && (read > 0 ==> !ThrowsLater(sub.frames[read - 1]))
    ensures exit.None? && marker.aborted ==> old(marker.aborted)
    ensures exit.None? && marker.finalized ==> old(marker.finalized)
    ensures exit.Some? && !exit.value.Return? ==>
      StopsAt(sub.frames, read) && (exit.value.Gap? <==> Gapped(sub, read)) && !marker.aborted && !marker.finalized
    ensures exit != Some(Return) ==> retries' == if Fruitful(sub.frames, read) then 0 else retries
    ensures exit != Some(Return) ==> marker.finalizedAs == old(marker.finalizedAs)
    ensures exit == Some(Return) ==> marker.aborted || marker.finalized
    ensures marker.aborted ==> old(marker.aborted) || marker.finalized || Stopped(env)
    ensures marker.finalized ==> old(marker.finalized) || marker.finalizedAs.Some?
    ensures marker.finalizedAs == old(marker.finalizedAs)
         || (marker.finalizedAs.Some? && SubscriptionSays(sub, marker.finalizedAs.value))
  {
    stored', retries', exit, read := stored, retries, None, 0;
    assert sub.frames[..0] == [] && stored + [] == stored;
    while read < |sub.frames|
      invariant Committed(sub.frames, read) && stored' == stored + EnvelopesIn(sub.frames[..read])
      invariant marker.envelopeOrdinal == old(marker.envelopeOrdinal) + |EnvelopesIn(sub.frames[..read])|
      invariant retries' == if Fruitful(sub.frames, read) then 0 else retries
      invariant read > 0 ==> !ThrowsLater(sub.frames[read - 1])
      invariant if read == 0 then marker.aborted == old(marker.aborted) && marker.finalized == old(marker.finalized)
                else !marker.aborted && !marker.finalized
      invariant exit.None?
      invariant marker.finalizedAs == old(marker.finalizedAs)
      decreases |sub.frames| - read
    {
      var frame := sub.frames[read];
      FruitfulOneMore(sub.frames, read);
      OneMoreHeld(sub.frames, read, stored);
      var committed;
      committed, exit := HandleFrame(env, marker, frame);
      if exit.Some? && !exit.value.Return? { EndsThere(sub, read, exit.value.Gap?); }
      if committed {
        stored', read := stored' + Held(frame), read + 1;
      }
      if exit.Some? { return; }
      if frame.EnvelopeFrame? { retries' := 0; }
    }
  }

  /**
   * One subscription, read to its end, and why it was read no further.  Budget: at most `maxRetries`
   * resubscriptions are used per stored envelope, plus the `retries` used since the last one.
   */
  method ReadSubscription(env: Environment, marker: ActiveStream, sub: Subscription, ghost history: seq<Envelope>,
      ghost start: nat, stored: seq<Envelope>, retries: nat)
    returns (stored': seq<Envelope>, retries': nat, outcome: Outcome, read: nat)
    requires Stored(history, start, marker.envelopeOrdinal, stored)
    requires EnvelopesIn(sub.frames) <= history[marker.envelopeOrdinal..]
    modifies marker`aborted, marker`finalized, marker`finalizedAs, marker`connected, marker`envelopeOrdinal,
      marker`lastProcessedSeq, marker`ticks
    ensures ReadSoFar(history, start, old(marker.envelopeOrdinal), sub.frames, read, marker.envelopeOrdinal, stored')
    ensures !outcome.Return? ==> StopsAt(sub.frames, read) && (outcome.Gap? <==> Gapped(sub, read))
    ensures !outcome.Return? ==> retries' == if Fruitful(sub.frames, read) then 0 else retries
    ensures !outcome.Return? ==> marker.finalizedAs == old(marker.finalizedAs)
    ensures outcome.Return? <==> marker.aborted || marker.finalized
    ensures marker.aborted ==> old(marker.aborted) || marker.finalized || Stopped(env)
    ensures marker.finalized ==> old(marker.finalized) || marker.finalizedAs.Some?
    ensures marker.finalizedAs == old(marker.finalizedAs)
         || (marker.finalizedAs.Some? && SubscriptionSays(sub, marker.finalizedAs.value))
  {
    var exit;
    stored', retries', exit, read := ReadFrames(env, marker, sub, stored, retries);
    ReadIsStretch(history, start, old(marker.envelopeOrdinal), sub.frames, read, stored);
    if exit.Some? {
      outcome := exit.value;
    } else {
      outcome := EndSubscription(env, marker, sub.ending);
    }
  }

  /** No more frames: the stream ended by itself or failed. */
  method EndSubscription(env: Environment, marker: ActiveStream, ending: Ending) returns (outcome: Outcome)
    modifies marker`connected, marker`aborted, marker`ticks
    ensures marker.aborted ==> old(marker.aborted) || Stopped(env)
    ensures outcome.Return? <==> marker.aborted || marker.finalized
    ensures !outcome.Return? ==> (outcome.Gap? <==> ending.Failed? && ending.compacted)
  {
    if ending.Failed? { marker.connected := false; }
    marker.Observe(env);
    outcome := if marker.finalized || marker.aborted then Return
               else if ending.Failed? && ending.compacted then Gap else Retry;
  }

  lemma {:induction false} FruitfulStores(fs: seq<Frame>, k: nat)
    requires k <= |fs| && Fruitful(fs, k)
    ensures |EnvelopesIn(fs[..k])| > 0
  {
    var i :| 0 <= i < k && fs[i].EnvelopeFrame? && !ThrowsLater(fs[i]);
    assert fs[..i + 1][..i] == fs[..i] && fs[..k][..i + 1] == fs[..i + 1];
    EnvelopesPrefix(fs[..k], i + 1);
  }

  function Budget(maxRetries: nat, envelopes: nat): nat { maxRetries * envelopes }

  lemma {:induction false} BudgetGrows(maxRetries: nat, a: nat, b: nat)
    requires a < b
    ensures Budget(maxRetries, a) + maxRetries <= Budget(maxRetries, b)
  {
    assert maxRetries * (a + 1) == maxRetries * a + maxRetries;
    assert maxRetries * b >= maxRetries * (a + 1);
  }

  // ---- A whole streaming phase ----------------------------------------------------------------

  /** One subscription as it was read: what was asked for, what came, and how many frames of it were read. */
  datatype Reading = Reading(after: nat, sub: Subscription, read: nat)
  {
    function Reached(): nat
      requires read <= |sub.frames|
    {
      after + |EnvelopesIn(sub.frames[..read])|
    }

    ghost predicate Done() { Committed(sub.frames, read) && StopsAt(sub.frames, read) }

    ghost predicate Bears() { Fruitful(sub.frames, read) }
  }

  /** Each subscription asks for what follows the last envelope stored by the ones before. */
  ghost predicate Chained(env: Environment, rs: seq<Reading>, start: nat, ordinal: nat) {
    && (forall k :: 0 <= k < |rs| ==> Committed(rs[k].sub.frames, rs[k].read) && rs[k].sub == env.subscribe(k, rs[k].after))
    && (rs != [] ==> rs[0].after == start && rs[|rs| - 1].Reached() == ordinal)
    && (forall k :: 0 <= k < |rs| - 1 ==> rs[k + 1].after == rs[k].Reached())
    && (rs == [] ==> ordinal == start)
  }

  /** Subscriptions since the last one that handled an envelope to the end, that one included. */
  ghost function Tries(rs: seq<Reading>): nat {
    if rs == [] then 0 else (if rs[|rs| - 1].Bears() then 0 else Tries(rs[..|rs| - 1])) + 1
  }

  /** A subscription that ended without a gap, with retries left: the loop goes on to another. */
  ghost predicate GoesOn(rs: seq<Reading>, resume: bool, maxRetries: nat) {
    rs != [] && rs[|rs| - 1].Done() && !Gapped(rs[|rs| - 1].sub, rs[|rs| - 1].read) && resume && Tries(rs) <= maxRetries
  }

  ghost predicate AllGoOn(rs: seq<Reading>, resume: bool, maxRetries: nat) {
    forall k :: 0 < k <= |rs| ==> GoesOn(rs[..k], resume, maxRetries)
  }

  /** The last of them ended in a gap. */
  ghost predicate GapLast(rs: seq<Reading>) {
    rs != [] && rs[|rs| - 1].Done() && Gapped(rs[|rs| - 1].sub, rs[|rs| - 1].read)
  }

  /** No more subscriptions: a gap, no resuming, no retries left, or the next subscription cannot be had. */
  ghost predicate GivesUp(env: Environment, rs: seq<Reading>, resume: bool, maxRetries: nat) {
    && rs != [] && rs[|rs| - 1].Done()
    && (GapLast(rs) || !resume || Tries(rs) > maxRetries || env.subscribeThrows(|rs| - 1))
  }

  lemma {:induction false} ChainOneMore(env: Environment, rs: seq<Reading>, start: nat, r: Reading, ordinal: nat)
    requires Chained(env, rs, start, r.after) && r.sub == env.subscribe(|rs|, r.after)
    requires Committed(r.sub.frames, r.read) && r.Reached() == ordinal
    ensures Chained(env, rs + [r], start, ordinal)
  {}

  lemma {:induction false} TriesOneMore(rs: seq<Reading>, r: Reading)
    ensures Tries(rs + [r]) == (if r.Bears() then 0 else Tries(rs)) + 1
  {
    assert (rs + [r])[..|rs|] == rs;
  }

  lemma {:induction false} GoOnOneMore(rs: seq<Reading>, r: Reading, resume: bool, maxRetries: nat)
    requires AllGoOn(rs, resume, maxRetries) && GoesOn(rs + [r], resume, maxRetries)
    ensures AllGoOn(rs + [r], resume, maxRetries)
  {
    forall k | 0 < k <= |rs| + 1 ensures GoesOn((rs + [r])[..k], resume, maxRetries) {
      assert if k <= |rs| then (rs + [r])[..k] == rs[..k] else (rs + [r])[..k] == rs + [r];
    }
  }

  /** One more subscription read, and what follows from how it ended. */
  lemma {:induction false} OneMoreReading(env: Environment, rs: seq<Reading>, start: nat, r: Reading, ordinal: nat,
      resume: bool, maxRetries: nat)
    requires Streaming(env, rs, start, r.after, resume, maxRetries)
    requires r.sub == env.subscribe(|rs|, r.after) && Committed(r.sub.frames, r.read) && r.Reached() == ordinal
    ensures Tries(rs + [r]) == (if r.Bears() then 0 else Tries(rs)) + 1
    ensures r.Bears() ==> |EnvelopesIn(r.sub.frames[..r.read])| > 0
    ensures r.Done() && Gapped(r.sub, r.read) ==> GapLast(rs + [r])
    ensures Streamed(env, rs + [r], start, ordinal, resume, maxRetries, !r.Done())
    ensures r.Done() && (Gapped(r.sub, r.read) || !resume || Tries(rs + [r]) > maxRetries || env.subscribeThrows(|rs|))
        ==> GivesUp(env, rs + [r], resume, maxRetries)
    ensures r.Done() && !Gapped(r.sub, r.read) && resume && Tries(rs + [r]) <= maxRetries
        ==> Streaming(env, rs + [r], start, ordinal, resume, maxRetries)
  {
    ChainOneMore(env, rs, start, r, ordinal);
    TriesOneMore(rs, r);
    assert (rs + [r])[..|rs|] == rs;
    if r.Bears() { FruitfulStores(r.sub.frames, r.read); }
    if GoesOn(rs + [r], resume, maxRetries) { GoOnOneMore(rs, r, resume, maxRetries); }
  }

  /** Resubscriptions are paid for by stored envelopes and by the retries since the last one. */
  lemma {:induction false} Paid(maxRetries: nat, resubscribes: nat, before: nat, after: nat, retries: nat, retries': nat)
    requires resubscribes <= Budget(maxRetries, before) + retries && before <= after && retries <= maxRetries
    requires retries' == retries || (retries' == 0 && before < after)
    ensures resubscribes <= Budget(maxRetries, after) + retries' && resubscribes <= Budget(maxRetries, after + 1)
  {
    if before < after { BudgetGrows(maxRetries, before, after); }
    BudgetGrows(maxRetries, after, after + 1);
  }

  /** What each pass of the streaming loop leaves true: `rs` are the subscriptions read so far. */
  ghost predicate Streaming(env: Environment, rs: seq<Reading>, start: nat, ordinal: nat, resume: bool, maxRetries: nat) {
    Chained(env, rs, start, ordinal) && AllGoOn(rs, resume, maxRetries)
  }

  /**
   * How a streaming phase went: every subscription but the last was read until it stopped by itself,
   * without a gap and with retries left; and so was the last, unless the marker died during it.
   */
  ghost predicate Streamed(env: Environment, rs: seq<Reading>, start: nat, ordinal: nat, resume: bool, maxRetries: nat,
      dead: bool)
  {
    && Chained(env, rs, start, ordinal)
    && (rs != [] ==> AllGoOn(rs[..|rs| - 1], resume, maxRetries))
    && (dead || (rs != [] && rs[|rs| - 1].Done()))
  }

  /** What the streaming loop does after a subscription: on to another, on to polling, or out of the loop. */
  datatype Next = Again | Polls | Leaves | Throws

  /** A gap is reported once and ends the streaming; otherwise there may be another subscription. */
  method AfterReading(env: Environment, marker: ActiveStream, outcome: Outcome, resume: bool, retries: nat,
      maxRetries: nat, resubscribes: nat)
    returns (next: Next)
    requires outcome.Return? <==> marker.aborted || marker.finalized
    modifies marker`historyGap, marker`aborted, marker`ticks
    ensures marker.historyGap == (old(marker.historyGap) || outcome.Gap?)
    ensures marker.aborted ==> old(marker.aborted) || Stopped(env)
    ensures next.Throws? ==> outcome.Gap? && env.gapEmitThrows
    ensures next.Leaves? <==> marker.aborted || marker.finalized
    ensures next.Again? ==> outcome.Retry? && resume && retries < maxRetries
    ensures next.Polls? ==>
      outcome.Gap? || (outcome.Retry? && (!resume || retries >= maxRetries || env.subscribeThrows(resubscribes)))
  {
    if outcome.Return? { return Leaves; }
    if outcome.Gap? {
      var first := !marker.historyGap;
      marker.historyGap := true;
      return if first && env.gapEmitThrows then Throws else Polls;
    }
    if !resume || retries + 1 > maxRetries { return Polls; }
    marker.Observe(env);
    if marker.aborted || marker.finalized { return Leaves; }
    return if env.subscribeThrows(resubscribes) then Polls else Again;
  }

  /** One pass of the loop: a subscription read, and what comes next. */
  method StreamOnce(env: Environment, marker: ActiveStream, ghost history: seq<Envelope>, ghost start: nat,
      handle: Subscription, stored: seq<Envelope>, retries: nat, maxRetries: nat, resume: bool, resubscribes: nat,
      ghost rs: seq<Reading>)
    returns (stored': seq<Envelope>, retries': nat, next: Next, ghost rs': seq<Reading>)
    requires Stored(history, start, marker.envelopeOrdinal, stored) && Honest(env, history)
    requires Streaming(env, rs, start, marker.envelopeOrdinal, resume, maxRetries)
    requires |rs| == resubscribes && handle == env.subscribe(resubscribes, marker.envelopeOrdinal)
    requires retries == Tries(rs) <= maxRetries && |rs| <= Budget(maxRetries, |stored|) + retries
    requires !marker.aborted && !marker.finalized
    modifies marker
    ensures Stored(history, start, marker.envelopeOrdinal, stored') && old(marker.envelopeOrdinal) <= marker.envelopeOrdinal
    ensures |rs'| == |rs| + 1 && |rs| <= Budget(maxRetries, |stored'| + 1)
    ensures Streamed(env, rs', start, marker.envelopeOrdinal, resume, maxRetries, marker.aborted || marker.finalized)
    ensures next.Again? ==>
      && Streaming(env, rs', start, marker.envelopeOrdinal, resume, maxRetries)
      && retries' + 1 == Tries(rs') <= maxRetries && |rs'| <= Budget(maxRetries, |stored'|) + retries' + 1
      && (retries' == retries || old(marker.envelopeOrdinal) < marker.envelopeOrdinal)
    ensures !next.Leaves? ==> marker.finalizedAs == old(marker.finalizedAs)
    ensures next.Polls? ==> GivesUp(env, rs', resume, maxRetries)
    ensures next.Throws? ==> GapLast(rs') && env.gapEmitThrows
    ensures next.Leaves? <==> marker.aborted || marker.finalized
    ensures marker.aborted ==> marker.finalized || Stopped(env)
    ensures marker.finalized ==> marker.finalizedAs.Some?
    ensures AsReported(env, old(marker.finalizedAs), marker.finalizedAs)
  {
    ghost var asked := marker.envelopeOrdinal;
    var outcome, read;
    stored', retries', outcome, read := ReadSubscription(env, marker, handle, history, start, stored, retries);
    ghost var r := Reading(asked, handle, read);
    OneMoreReading(env, rs, start, r, marker.envelopeOrdinal, resume, maxRetries);
    rs' := rs + [r];
    next := AfterReading(env, marker, outcome, resume, retries', maxRetries, resubscribes);
    BudgetGrows(maxRetries, |stored|, |stored'| + 1);
    if !outcome.Return? { Paid(maxRetries, |rs|, |stored|, |stored'|, retries, retries'); }
  }

  /** The streaming loop: consume, and resubscribe from the ordinal until done, gapped or out of retries. */
  method StreamPhase(env: Environment, marker: ActiveStream, ghost history: seq<Envelope>, maxRetries: nat,
      resume: bool)
    returns (stored: seq<Envelope>, resubscribes: nat, threw: bool, done: bool, ghost rs: seq<Reading>)
    requires Honest(env, history) && marker.envelopeOrdinal <= |history|
    modifies marker
    ensures Stored(history, old(marker.envelopeOrdinal), marker.envelopeOrdinal, stored)
    ensures resubscribes <= Budget(maxRetries, |stored| + 1)
    ensures Streamed(env, rs, old(marker.envelopeOrdinal), marker.envelopeOrdinal, resume, maxRetries,
                     marker.aborted || marker.finalized)
    ensures done && !threw ==> marker.aborted || marker.finalized
    ensures !done ==> GivesUp(env, rs, resume, maxRetries) && !marker.aborted && !marker.finalized
    ensures !done ==> marker.finalizedAs == old(marker.finalizedAs)
    ensures threw ==> done && GapLast(rs) && env.gapEmitThrows
    ensures marker.aborted ==> old(marker.aborted) || marker.finalized || Stopped(env)
    ensures marker.finalized ==> old(marker.finalized) || marker.finalizedAs.Some?
    ensures AsReported(env, old(marker.finalizedAs), marker.finalizedAs)
  {
    ghost var start := marker.envelopeOrdinal;
    stored, resubscribes, threw, done, rs := [], 0, false, false, [];
    var retries: nat := 0;
    var handle := env.subscribe(0, marker.envelopeOrdinal);
    while !marker.aborted && !marker.finalized
      invariant Stored(history, start, marker.envelopeOrdinal, stored)
      invariant Streaming(env, rs, start, marker.envelopeOrdinal, resume, maxRetries)
      invariant |rs| == resubscribes && handle == env.subscribe(resubscribes, marker.envelopeOrdinal)
      invariant marker.finalizedAs == old(marker.finalizedAs)
      invariant marker.finalized == old(marker.finalized) && marker.aborted == old(marker.aborted)
      invariant rs != [] ==> !marker.aborted && !marker.finalized
      invariant retries == Tries(rs) <= maxRetries && resubscribes <= Budget(maxRetries, |stored|) + retries
      decreases |history| - marker.envelopeOrdinal, maxRetries - retries
    {
      var next;
      stored, retries, next, rs := StreamOnce(env, marker, history, start, handle, stored, retries, maxRetries, resume,
                                               resubscribes, rs);
      if !next.Again? { return stored, resubscribes, next.Throws?, !next.Polls?, rs; }
      retries, resubscribes := retries + 1, resubscribes + 1;
      handle := env.subscribe(resubscribes, marker.envelopeOrdinal);
    }
    BudgetGrows(maxRetries, |stored|, |stored| + 1);
    done := true;
  }

  // ---- What reading to the end means ----------------------------------------------------------

  /** Nothing is in the way of reading: every frame commits and nothing throws. */
  ghost predicate Smooth(env: Environment) {
    forall n: nat, after: nat :: AllCommit(env.subscribe(n, after).frames)
  }

  ghost predicate AllCommit(fs: seq<Frame>) { forall i :: 0 <= i < |fs| ==> !Aborts(fs[i]) && !ThrowsLater(fs[i]) }

  /**
   * When every frame commits and nothing throws, a streaming phase that was not stopped and met no
   * terminal state has stored every envelope of every subscription it opened, and nothing else.
   */
  lemma {:induction false} SmoothStoresAll(env: Environment, rs: seq<Reading>, start: nat, ordinal: nat, resume: bool,
      maxRetries: nat, history: seq<Envelope>, stored: seq<Envelope>)
    requires Streamed(env, rs, start, ordinal, resume, maxRetries, false) && Smooth(env)
    requires Stored(history, start, ordinal, stored) && Honest(env, history)
    ensures stored == Everything(rs)
  {
    forall k | 0 <= k < |rs| ensures rs[k].read == |rs[k].sub.frames| {
      assert AllCommit(rs[k].sub.frames);
      if k < |rs| - 1 {
        assert GoesOn(rs[..|rs| - 1][..k + 1], resume, maxRetries) && rs[..|rs| - 1][..k + 1][k] == rs[k];
      }
    }
    AllStored(env, rs, start, ordinal, history);
  }

  /** Every envelope of every subscription, in order. */
  function Everything(rs: seq<Reading>): seq<Envelope> {
    if rs == [] then [] else Everything(rs[..|rs| - 1]) + EnvelopesIn(rs[|rs| - 1].sub.frames)
  }

  lemma {:induction false} Stretch<T>(s: seq<T>, a: nat, b: nat, next: seq<T>)
    requires a <= b <= |s| && next <= s[b..]
    ensures s[a..b + |next|] == s[a..b] + next
  {
    assert next == s[b..][..|next|];
  }

  lemma {:induction false} AllStored(env: Environment, rs: seq<Reading>, start: nat, ordinal: nat, history: seq<Envelope>)
    requires Chained(env, rs, start, ordinal) && Honest(env, history) && start <= ordinal <= |history|
    requires forall k :: 0 <= k < |rs| ==> rs[k].read == |rs[k].sub.frames|
    ensures history[start..ordinal] == Everything(rs)
    decreases |rs|
  {
    if rs != [] {
      var n := |rs| - 1;
      var r, rest := rs[n], rs[..n];
      ChainFewer(env, rs, start, ordinal);
      AllStored(env, rest, start, r.after, history);
      assert r.sub.frames[..r.read] == r.sub.frames;
      Stretch(history, start, r.after, EnvelopesIn(r.sub.frames));
    }
  }

  lemma {:induction false} ChainFewer(env: Environment, rs: seq<Reading>, start: nat, ordinal: nat)
    requires rs != [] && Chained(env, rs, start, ordinal)
    ensures Chained(env, rs[..|rs| - 1], start, rs[|rs| - 1].after) && start <= rs[|rs| - 1].after <= ordinal
    decreases |rs|
  {
    var n := |rs| - 1;
    var rest := rs[..n];
    assert forall k :: 0 <= k < n ==> rest[k] == rs[k];
    if n > 0 {
      assert rs[n - 1 + 1].after == rs[n - 1].Reached();
      ChainFewer(env, rest, start, rs[n].after);
    }
  }

  // ---- Polling --------------------------------------------------------------------------------

  /** The terminal mark one poll settles the run with, if it does. */
  function Concludes(a: PollAnswer): Option<Lifecycle.Mark> {
    if a.fails || !a.fate.commits then None
    else if a.fate.terminal.Some? then a.fate.terminal
    else if a.fate.throwsLater then None
    else a.terminalState
  }

  /** One poll that came back: its snapshot is handled, and a terminal state in it finalizes the run. */
  method HandlePoll(marker: ActiveStream, answer: PollAnswer) returns (failed: bool)
    requires !answer.fails && !marker.finalized
    modifies marker`aborted, marker`finalized, marker`finalizedAs, marker`connected, marker`envelopeOrdinal, marker`lastProcessedSeq
    ensures marker.envelopeOrdinal == old(marker.envelopeOrdinal)
    ensures marker.finalized <==> Concludes(answer).Some?
    ensures marker.finalizedAs == if marker.finalized then Concludes(answer) else old(marker.finalizedAs)
    ensures marker.aborted == (old(marker.aborted) || marker.finalized)
  {
    failed := marker.HandleRawEvent(OtherFrame(answer.fate));
    if !failed && !marker.finalized && answer.terminalState.Some? {
      failed := marker.FinalizeRun(answer.terminalState.value, answer.markThrows);
    }
  }

  /** The first n polls settled nothing. */
  ghost predicate Inconclusive(env: Environment, n: nat) { forall k: nat :: k < n ==> Concludes(env.poll(k)).None? }

  /**
   * How a polling phase that makes `polls` polls leaves the run: settled by the last of them, or as
   * failed after maxRetries + 1 that settled nothing, or not settled, because it was stopped or an
   * error escaped.
   */
  ghost predicate Polled(env: Environment, polls: nat, maxRetries: nat, finalizedAs: Option<Lifecycle.Mark>,
      finalized: bool, threw: bool)
  {
    || (polls > 0 && Inconclusive(env, polls - 1) && finalized && finalizedAs.Some?
        && finalizedAs == Concludes(env.poll(polls - 1)))
    || (Inconclusive(env, polls) && polls == maxRetries + 1 && finalized && finalizedAs == Some(Lifecycle.MarkFailed))
    || (Inconclusive(env, polls) && polls <= maxRetries && !finalized
        && if threw then polls > 0 && env.poll(polls - 1).emitThrows else Stopped(env))
  }

  /**
   * The polling fallback: until a terminal state, a stop, or `maxRetries` fruitless polls, when the
   * run counts as failed.
   */
  method PollPhase(env: Environment, marker: ActiveStream, maxRetries: nat) returns (polls: nat, threw: bool)
    modifies marker`aborted, marker`finalized, marker`finalizedAs, marker`connected, marker`ticks, marker`envelopeOrdinal,
      marker`lastProcessedSeq
    ensures polls <= maxRetries + 1
    ensures marker.envelopeOrdinal == old(marker.envelopeOrdinal)
    ensures !threw ==> marker.aborted || marker.finalized
    ensures if old(marker.aborted) || old(marker.finalized) then polls == 0 && marker.finalized == old(marker.finalized)
            else Polled(env, polls, maxRetries, marker.finalizedAs, marker.finalized, threw)
    ensures marker.aborted ==> old(marker.aborted) || marker.finalized || Stopped(env)
    ensures !marker.finalized || polls == 0 ==> marker.finalizedAs == old(marker.finalizedAs)
  {
    polls, threw := 0, false;
    var retries := 0;
    marker.Observe(env);
    while !marker.aborted && !marker.finalized
      invariant polls == retries <= maxRetries + 1
      invariant marker.envelopeOrdinal == old(marker.envelopeOrdinal)
      invariant old(marker.aborted) || old(marker.finalized) ==>
        (marker.aborted || marker.finalized) && polls == 0 && marker.finalized == old(marker.finalized)
      invariant if old(marker.finalized) then marker.finalizedAs == old(marker.finalizedAs)
                else if marker.finalized then Polled(env, polls, maxRetries, marker.finalizedAs, true, threw)
                else Inconclusive(env, polls) && polls <= maxRetries && marker.finalizedAs == old(marker.finalizedAs)
      invariant marker.aborted ==> old(marker.aborted) || marker.finalized || Stopped(env)
      decreases maxRetries + 1 - retries
    {
      var answer := env.poll(polls);
      polls := polls + 1;
      if !answer.fails {
        var failed := HandlePoll(marker, answer);
        if !failed && marker.finalized { return; }
      }
      retries := retries + 1;
      if retries > maxRetries {
        threw := marker.FinalizeRun(Lifecycle.MarkFailed, env.lastMarkThrows);
        return;
      }
      if answer.emitThrows { return polls, true; }
      marker.Observe(env);
    }
  }

  lemma {:induction false} PolledAsReported(env: Environment, polls: nat, maxRetries: nat, before: Option<Lifecycle.Mark>,
      fin: Option<Lifecycle.Mark>, finalized: bool, threw: bool)
    requires (polls == 0 && fin == before)
      || (Polled(env, polls, maxRetries, fin, finalized, threw) && (!finalized ==> fin == before))
    ensures AsReported(env, before, fin) || (fin == Some(Lifecycle.MarkFailed) && polls == maxRetries + 1)
  {
    if polls > 0 && finalized && fin == Concludes(env.poll(polls - 1)) && fin.Some? {
      assert PollSays(env.poll(polls - 1), fin.value);
    }
  }

  // ---- The whole loop -------------------------------------------------------------------------

  datatype Report = Report(stored: seq<Envelope>, resubscribes: nat, polls: nat, threw: bool)

  /**
   * `consumeLoop` ends, whatever the environment answers, as long as each subscription is finite
   * and the history is.  With k envelopes stored it resubscribes at most maxRetries*(k+1) times and
   * polls at most maxRetries+1 times; what it stored is the stretch of history its ordinal moved
   * over; unless an error escapes, it leaves the marker aborted or finalized; and if it finalizes the
   * run, then as some frame or poll reported, or as failed after that last poll.  `rs` says how each
   * subscription went, and `polling` whether it came to polling.
   */
  method Consume(env: Environment, marker: ActiveStream, ghost history: seq<Envelope>, maxRetries: nat, resume: bool,
      pollOnly: bool)
    returns (r: Report, ghost rs: seq<Reading>, ghost polling: bool)
    requires Honest(env, history) && marker.envelopeOrdinal <= |history|
    modifies marker
    ensures Stored(history, old(marker.envelopeOrdinal), marker.envelopeOrdinal, r.stored)
    ensures r.resubscribes <= maxRetries * (|r.stored| + 1)
    ensures r.polls <= maxRetries + 1
    ensures Streamed(env, rs, old(marker.envelopeOrdinal), marker.envelopeOrdinal, resume, maxRetries, true)
    ensures polling ==> pollOnly || GivesUp(env, rs, resume, maxRetries)
    ensures !old(marker.aborted) && !old(marker.finalized) ==>
      if polling then Polled(env, r.polls, maxRetries, marker.finalizedAs, marker.finalized, r.threw)
      else r.polls == 0 && if r.threw then GapLast(rs) && env.gapEmitThrows else marker.finalized || Stopped(env)
    ensures !r.threw ==> marker.aborted || marker.finalized
    ensures marker.aborted ==> old(marker.aborted) || marker.finalized || Stopped(env)
    ensures AsReported(env, old(marker.finalizedAs), marker.finalizedAs)
         || (marker.finalizedAs == Some(Lifecycle.MarkFailed) && r.polls == maxRetries + 1)
  {
    var stored, resubscribes, threw, done := [], 0, false, false;
    rs, polling := [], false;
    if !pollOnly {
      stored, resubscribes, threw, done, rs := StreamPhase(env, marker, history, maxRetries, resume);
    }
    if threw || done { return Report(stored, resubscribes, 0, threw), rs, false; }
    polling := true;
    var polls, escaped := PollPhase(env, marker, maxRetries);
    PolledAsReported(env, polls, maxRetries, old(marker.finalizedAs), marker.finalizedAs, marker.finalized, escaped);
    return Report(stored, resubscribes, polls, escaped), rs, true;
  }

  /**
   * `start` around the loop: an error that escapes is caught, and the run is finalized as failed
   * unless it was being stopped on purpose.  Either way the marker ends up dead.
   */
  method Start(env: Environment, ghost history: seq<Envelope>, ordinal: nat, resumeFromSeq: nat, maxRetries: nat,
      resume: bool, pollOnly: bool, finalizeThrows: bool)
    returns (marker: ActiveStream, r: Report, ghost rs: seq<Reading>)
    requires Honest(env, history) && ordinal <= |history|
    ensures fresh(marker)
    ensures Stored(history, ordinal, marker.envelopeOrdinal, r.stored)
    ensures marker.aborted || marker.finalized
    ensures r.threw ==> marker.finalized
    ensures marker.aborted ==> marker.finalized || Stopped(env)
    ensures Streamed(env, rs, ordinal, marker.envelopeOrdinal, resume, maxRetries, true)
    ensures !pollOnly && r.polls > 0 ==> GivesUp(env, rs, resume, maxRetries)
    ensures AsReported(env, None, marker.finalizedAs)
         || (marker.finalizedAs == Some(Lifecycle.MarkFailed) && (r.polls == maxRetries + 1 || r.threw))
  {
    marker := new ActiveStream(ordinal, resumeFromSeq);
    ghost var polling;
    r, rs, polling := Consume(env, marker, history, maxRetries, resume, pollOnly);
    if r.threw {
      if marker.aborted {
        marker.finalized := true;
      } else {
        var failed := marker.FinalizeRun(Lifecycle.MarkFailed, finalizeThrows);
        if failed { marker.finalized, marker.aborted := true, true; }
      }
    }
  }
}
