/** What the signal, timeline, progress and LLM lists hold, entry by entry, read off the log. */
module SignalLaws {
  import opened Prelude
  import opened Events
  import opened Projection
  import opened Batching
  import opened RunLaws
  import opened Summaries
  import opened Windows

  // ---- Signals and their acknowledgements -----------------------------------------------------

  predicate Emits(e: Event) { e.kind == SignalEmitted }

  /** The id a signal goes by, and the id an acknowledgement is for. */
  function SignalId(e: Event): string { match e.subject case Some(s) => s.id case None => e.id }

  function Target(e: Event): string {
    match e.data.decodedPayload
    case Some(p) => if p.signalId.Some? then p.signalId.value else e.SubjectId().Or("")
    case None => e.SubjectId().Or("")
  }

  predicate Acks(id: string, e: Event) { e.kind == SignalAcknowledged && id != "" && Target(e) == id }

  function AckedAt(id: string): Event -> Option<Time> { (e: Event) => if Acks(id, e) then Some(e.ts) else None }

  /** Acknowledged by somebody with a name. */
  function AckedBy(id: string): Event -> Option<string> {
    (e: Event) => if Acks(id, e) && e.data.sender.Some? && e.data.sender.value != "" then e.data.sender else None
  }

  function NameOf(e: Event): string {
    if e.data.decodedPayload.Some? && e.data.decodedPayload.value.signalType.Some? then e.data.decodedPayload.value.signalType.value
    else if e.data.messageType.Some? then e.data.messageType.value.Text()
    else "Signal"
  }

  function PayloadField<T>(e: Event, f: Payload -> Option<T>): Option<T> {
    match e.data.decodedPayload case Some(p) => f(p) case None => None
  }

  /** The signal emitted by the j-th event, as the rest of the log leaves it. */
  function Told(es: seq<Event>, j: nat): Signal
    requires j < |es|
  {
    var e := es[j];
    Signal(SignalId(e), NameOf(e), PayloadField(e, (p: Payload) => p.severity), e.data.sender, e.ts,
           PayloadField(e, (p: Payload) => p.confidence), e.data.decodedPayload, e.data.senderAuthenticated,
           Latest(AckedAt(SignalId(e)), es[j + 1..]), Latest(AckedBy(SignalId(e)), es[j + 1..]))
  }

  /** The indices of the elements that satisfy `p`. */
  function Indices<T>(p: T -> bool, s: seq<T>): (r: seq<nat>)
    ensures forall k :: 0 <= k < |r| ==> r[k] < |s|
    decreases |s|
  {
    if s == [] then [] else Indices(p, s[..|s| - 1]) + if p(s[|s| - 1]) then [|s| - 1] else []
  }

  /** Every signal of the log, in order, each with its own acknowledgements. */
  function SignalsTold(es: seq<Event>): seq<Signal> {
    var js := Indices(Emits, es);
    seq(|js|, k requires 0 <= k < |js| => Told(es, js[k]))
  }

  lemma {:induction false} LatestOn<T>(f: Event -> Option<T>, es: seq<Event>, j: nat)
    requires j + 1 < |es|
    ensures Latest(f, es[j + 1..]) == f(es[|es| - 1]).OrElse(Latest(f, es[..|es| - 1][j + 1..]))
  {
    var n := |es| - 1;
    assert es[j + 1..][..n - j - 1] == es[..n][j + 1..];
  }

  /** One more event acknowledges the signals it is for, and changes no other. */
  lemma {:induction false} ToldOn(es: seq<Event>, j: nat)
    requires j + 1 < |es|
    ensures var e, s := es[|es| - 1], Told(es[..|es| - 1], j);
      Told(es, j) == if Acks(s.id, e) then Acknowledged(s, e) else s
  {
    var n := |es| - 1;
    assert es[..n][j] == es[j];
    LatestOn(AckedAt(SignalId(es[j])), es, j);
    LatestOn(AckedBy(SignalId(es[j])), es, j);
  }

  lemma {:induction false} FreshlyTold(es: seq<Event>)
    requires es != [] && Emits(es[|es| - 1])
    ensures Told(es, |es| - 1) == SignalOf(es[|es| - 1])
  {
    assert es[|es|..] == [];
  }

  lemma {:induction false} ReadTarget(s: seq<Signal>, e: Event)
    requires DistinctIds(s) && e.kind == SignalAcknowledged
    ensures |Acknowledge(s, e)| == |s|
    ensures forall k :: 0 <= k < |s| ==> Acknowledge(s, e)[k] == if Acks(s[k].id, e) then Acknowledged(s[k], e) else s[k]
  {
    assert AckTarget(e) == Target(e);
    var i := FindSignal(s, Target(e));
    forall k | 0 <= k < |s| && s[k].id == Target(e) ensures k == i {}
  }

  /**
   * The unbounded signal list, entry by entry: the k-th signal is what the k-th emitting event says,
   * acknowledged when and by whom the latest acknowledgement after it that names it says.
   */
  lemma {:induction false} SignalsOfTheLog(es: seq<Event>)
    requires DistinctIds(SignalLog(es))
    ensures SignalLog(es) == SignalsTold(es)
    decreases |es|
  {
    if es != [] {
      var n, e := |es| - 1, es[|es| - 1];
      PrefixesDistinct(es);
      SignalsOfTheLog(es[..n]);
      var js, s := Indices(Emits, es[..n]), SignalLog(es[..n]);
      forall k | 0 <= k < |js| ensures SignalLog(es)[k] == Told(es, js[k]) {
        ToldOn(es, js[k]);
        if e.kind == SignalAcknowledged { ReadTarget(s, e); }
      }
      if Emits(e) { FreshlyTold(es); }
    }
  }

  // ---- Entries of the other lists -------------------------------------------------------------

  lemma {:induction false} SameMap<A, B>(f: A -> B, g: A -> B, s: seq<A>)
    requires forall i :: 0 <= i < |s| ==> f(s[i]) == g(s[i])
    ensures Map(f, s) == Map(g, s)
  {
    MapIndex(f, s);
    MapIndex(g, s);
  }

  lemma {:induction false} SamePicked<T>(p: Event -> bool, f: Event -> T, g: Event -> T, es: seq<Event>)
    requires forall i :: 0 <= i < |es| ==> f(es[i]) == g(es[i])
    ensures Picked(p, f, es) == Picked(p, g, es)
    decreases |es|
  {
    if es != [] { SamePicked(p, f, g, es[..|es| - 1]); }
  }

  function Entry(e: Event): TimelineEntry { TimelineEntry(e.id, e.seqNo, e.ts, e.kind, e.subject) }

  predicate Reports(e: Event) { e.kind == ProgressReported }

  function Progress(e: Event): ProgressEntry {
    ProgressEntry(e.data.sender.Or(""), PayloadField(e, (p: Payload) => p.percentage),
                  PayloadField(e, (p: Payload) => p.message).Or(""), e.ts)
  }

  predicate Calls(e: Event) { e.kind == LlmCallCompleted && e.data.decodedPayload.Some? }

  /** One LLM call; what it does not report of its tokens counts as zero, and the total as their sum. */
  function Call(e: Event): LlmCall {
    match e.data.decodedPayload
    case Some(p) =>
      LlmCall(e.data.sender.Or(""), p.model, p.promptTokens.Or(0.0), p.completionTokens.Or(0.0),
              p.totalTokens.Or(p.promptTokens.Or(0.0) + p.completionTokens.Or(0.0)), e.ts, e.data.messageId, p.estimatedCostUsd)
    case None => LlmCall("", None, 0.0, 0.0, 0.0, 0, None, None)
  }

  lemma {:induction false} CallsWindow(es: seq<Event>)
    ensures Foldl(StepLlm, NO_LLM, es).calls == Last(Picked(Calls, Call, es), 100)
    decreases |es|
  {
    if es != [] {
      var n := |es| - 1;
      CallsWindow(es[..n]);
      var before := Picked(Calls, Call, es[..n]);
      LastAppend(before, [Call(es[n])], 100);
      assert before + [] == before;
    }
  }

  /** The lists of a run's projection, each the last so many of what its events say. */
  lemma {:induction false} ListsOfTheLog(runId: string, es: seq<Event>)
    ensures var s := Apply(Empty(runId), es);
      && s.cols.timeline.recent == Last(Map(Entry, es), 50)
      && s.cols.timeline.latestSeq == (if es == [] then 0 else es[|es| - 1].seqNo)
      && s.cols.progress == Last(Picked(Reports, Progress, es), 100)
      && s.llm.calls == Last(Picked(Calls, Call, es), 100)
      && (DistinctIds(SignalLog(es)) ==> s.cols.signals == Last(SignalsTold(es), 200))
  {
    StoredWindows(runId, es);
    TimelineColumn(runId, Empty(runId), es);
    TimelineWindow(es);
    SameMap(EntryOf, Entry, es);
    ProgressColumn(runId, Empty(runId), es);
    ProgressWindow(es);
    SamePicked(IsProgress, ProgressOf, Progress, es);
    SamePick(IsProgress, Reports, Progress, es);
    LlmColumn(runId, Empty(runId), es);
    CallsWindow(es);
    if DistinctIds(SignalLog(es)) { SignalsOfTheLog(es); }
  }

  lemma {:induction false} SamePick<T>(p: Event -> bool, q: Event -> bool, f: Event -> T, es: seq<Event>)
    requires forall i :: 0 <= i < |es| ==> p(es[i]) == q(es[i])
    ensures Picked(p, f, es) == Picked(q, f, es)
    decreases |es|
  {
    if es != [] { SamePick(p, q, f, es[..|es| - 1]); }
  }
}
