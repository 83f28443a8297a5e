/** The bounded lists of the projection against the unbounded logs they abbreviate. */
module Windows {
  import opened Prelude
  import opened Events
  import opened Projection

  lemma {:induction false} TimelineColumn(base: string, s: State, es: seq<Event>)
    ensures Fold(base, s, es).cols.timeline == Foldl(StepTimeline, s.cols.timeline, es)
  {
    FoldlProject(Stepper(base), StepTimeline, (s: State) => s.cols.timeline, s, es);
  }

  lemma {:induction false} SignalColumn(base: string, s: State, es: seq<Event>)
    ensures Fold(base, s, es).cols.signals == Foldl(StepSignals, s.cols.signals, es)
  {
    FoldlProject(Stepper(base), StepSignals, (s: State) => s.cols.signals, s, es);
  }

  /** `timeline.recent` is the last 50 events, and the counters are exact, however long the log. */
  lemma {:induction false} TimelineWindow(es: seq<Event>)
    ensures var t := Foldl(StepTimeline, Timeline(0, 0, []), es);
            && t.totalEvents == |es|
            && t.latestSeq == (if es == [] then 0 else es[|es| - 1].seqNo)
            && t.recent == Last(Map(EntryOf, es), TIMELINE_WINDOW)
    decreases |es|
  {
    if es != [] {
      var n := |es| - 1;
      TimelineWindow(es[..n]);
      LastAppend(Map(EntryOf, es[..n]), [EntryOf(es[n])], TIMELINE_WINDOW);
      assert Map(EntryOf, es[..n]) + [EntryOf(es[n])] == Map(EntryOf, es);
    }
  }

  /** The acknowledged signal list if nothing were ever evicted. */
  function SignalLog(es: seq<Event>): seq<Signal>
    decreases |es|
  {
    if es == [] then []
    else
      var e := es[|es| - 1];
      var s := SignalLog(es[..|es| - 1]);
      if e.kind.SignalEmitted? then s + [SignalOf(e)]
      else if e.kind.SignalAcknowledged? then Acknowledge(s, e)
      else s
  }

  ghost predicate DistinctIds(s: seq<Signal>) {
    forall i, j :: 0 <= i < j < |s| ==> s[i].id != s[j].id
  }

  lemma FindSignalIs(s: seq<Signal>, id: string, i: nat)
    requires i <= |s| && (i < |s| ==> s[i].id == id)
    requires forall j :: 0 <= j < i ==> s[j].id != id
    ensures FindSignal(s, id) == i
  {}

  /**
   * Acknowledging and evicting commute exactly unless the acknowledgement names an evicted signal
   * whose id a signal still in the window has reused (and which it would visibly change).
   */
  lemma {:induction false} EvictionCommutesIff(s: seq<Signal>, e: Event, n: nat)
    ensures var w := Last(s, n);
            var k := FindSignal(w, AckTarget(e));
            Acknowledge(w, e) == Last(Acknowledge(s, e), n)
            <==> !(&& AckTarget(e) != ""
                   && FindSignal(s, AckTarget(e)) < |s| - |w|
                   && k < |w|
                   && Acknowledged(w[k], e) != w[k])
  {
    var w, id := Last(s, n), AckTarget(e);
    var cut := |s| - |w|;
    assert w == s[cut..];
    var i, k := FindSignal(s, id), FindSignal(w, id);
    var left, right := Acknowledge(w, e), Last(Acknowledge(s, e), n);
    if id != "" && i < |s| {
      if i >= cut {
        FindSignalIs(w, id, i - cut);
        assert left == right;
      } else {
        assert right == w;
        if k < |w| {
          assert left[k] == Acknowledged(w[k], e);
        }
      }
    } else if id != "" {
      FindSignalIs(w, id, |w|);
    }
  }

  lemma {:induction false} PrefixesDistinct(es: seq<Event>)
    requires DistinctIds(SignalLog(es))
    ensures forall k :: 0 <= k <= |es| ==> DistinctIds(SignalLog(es[..k]))
    decreases |es|
  {
    assert es[..|es|] == es;
    if es != [] {
      var n := |es| - 1;
      var s, t := SignalLog(es[..n]), SignalLog(es);
      assert forall i :: 0 <= i < |s| ==> s[i].id == t[i].id;
      PrefixesDistinct(es[..n]);
      forall k | 0 <= k <= |es| ensures DistinctIds(SignalLog(es[..k])) {
        if k <= n { assert es[..n][..k] == es[..k]; }
      }
    }
  }

  /**
   * The 200-entry list with in-place acknowledgements is the last 200 of the unbounded
   * acknowledged list, whenever the signals of the log have distinct ids.
   */
  lemma {:induction false} SignalWindow(es: seq<Event>)
    requires DistinctIds(SignalLog(es))
    ensures Foldl(StepSignals, [], es) == Last(SignalLog(es), SIGNAL_WINDOW)
    decreases |es|
  {
    if es != [] {
      var n, e := |es| - 1, es[|es| - 1];
      PrefixesDistinct(es);
      SignalWindow(es[..n]);
      var s := SignalLog(es[..n]);
      if e.kind.SignalEmitted? {
        LastAppend(s, [SignalOf(e)], SIGNAL_WINDOW);
      } else if e.kind.SignalAcknowledged? {
        EvictionCommutesIff(s, e, SIGNAL_WINDOW);
      }
    }
  }

  /** The stored signal and timeline columns of a run, as windows over its whole log. */
  lemma {:induction false} StoredWindows(runId: string, es: seq<Event>)
    ensures var c := Apply(Empty(runId), es).cols;
            && c.timeline.totalEvents == |es|
            && c.timeline.recent == Last(Map(EntryOf, es), TIMELINE_WINDOW)
            && (DistinctIds(SignalLog(es)) ==> c.signals == Last(SignalLog(es), SIGNAL_WINDOW))
  {
    TimelineColumn(runId, Empty(runId), es);
    SignalColumn(runId, Empty(runId), es);
    TimelineWindow(es);
    if DistinctIds(SignalLog(es)) {
      SignalWindow(es);
    }
  }
}
