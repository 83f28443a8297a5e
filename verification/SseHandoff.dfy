/**
 * The backfill/live handoff of `streamRun` as a state machine: commits, publications and the
 * subscriber's paging interleave freely, and the hub may publish committed events in any order.
 */
module SseHandoff {
  import opened Prelude
  import opened Paging
  import opened Sse

  function Same(n: nat): nat { n }

  const PAGE_SIZE: nat := 500

  /** Backfill: about to read after the cursor, holding a page read when the log had `read` rows, or done. */
  datatype Phase = Reading(cursor: nat) | Holding(cursor: nat, page: seq<nat>, read: nat) | Live

  /**
   * `log` is the committed canonical log; `hub` lists the events the hub has published, as it
   * published them, and `joined` is how many that was when the subscriber connected.  `mark` is
   * history: the subscriber as it was when its backfill ended.
   */
  datatype System = System(log: seq<nat>, hub: seq<nat>, joined: nat, sub: Subscriber, phase: Phase, mark: Subscriber)

  datatype Action = Commit(batch: seq<nat>) | Publish(n: nat) | PublishSnapshot | ReadPage | EmitPage | SkipBackfill

  ghost predicate Positive(ns: seq<nat>) { forall i :: 0 <= i < |ns| ==> ns[i] > 0 }

  ghost predicate Does(s: System, a: Action, s': System) {
    match a
    case Commit(batch) => Sorted(Same, s.log + batch) && Positive(batch) && s' == s.(log := s.log + batch)
    case Publish(n) =>
      n in s.log && n !in s.hub && s' == s.(hub := s.hub + [n], sub := Receive(s.sub, EventMessage(n)))
    case PublishSnapshot => s' == s.(sub := Receive(s.sub, SnapshotMessage))
    case ReadPage =>
      && s.phase.Reading? && s.sub.afterSeq > 0
      && s' == s.(phase := Holding(s.phase.cursor, Query(Same, s.log, s.phase.cursor, PAGE_SIZE), |s.log|))
    case EmitPage => s.phase.Holding? && s' == AfterPage(s)
    case SkipBackfill => s.phase.Reading? && s.sub.afterSeq == 0 && s' == GoneLive(s, s.sub)
  }

  /** The backfill ended with this subscriber: its buffer is flushed without giving way. */
  function GoneLive(s: System, sub: Subscriber): System { s.(sub := GoLive(sub), phase := Live, mark := sub) }

  /** A full page sends the loop back for more; a short one ends the backfill. */
  function AfterPage(s: System): System
    requires s.phase.Holding?
  {
    var page, sub := s.phase.page, OfferAll(s.sub, s.phase.page);
    if |page| < PAGE_SIZE then GoneLive(s, sub) else s.(sub := sub, phase := Reading(page[|page| - 1]))
  }

  ghost predicate Next(s: System, s': System) { exists a: Action :: Does(s, a, s') }

  ghost predicate Published(log: seq<nat>, hub: seq<nat>) { Distinct(hub) && forall n :: n in hub ==> n in log }

  ghost predicate Joins(s: System) {
    && Sorted(Same, s.log) && Positive(s.log) && Published(s.log, s.hub) && s.joined == |s.hub|
    && s.sub == Connect(s.sub.afterSeq) && s.phase == Reading(s.sub.afterSeq)
  }

  ghost predicate Run(tr: seq<System>) {
    tr != [] && Joins(tr[0]) && forall i :: 0 <= i < |tr| - 1 ==> Next(tr[i], tr[i + 1])
  }

  /** The entries of the log above `lo` and at most `hi`. */
  function Between(log: seq<nat>, lo: nat, hi: nat): seq<nat> { Filter((n: nat) => lo < n <= hi, log) }

  function Above(log: seq<nat>, lo: nat): seq<nat> { Filter((n: nat) => n > lo, log) }

  /** Sent: exactly the events between the floor and the high-water mark. */
  ghost predicate Sent(sub: Subscriber, log: seq<nat>, floor: nat) {
    && sub.emitted == Between(log, floor, sub.highSeq)
    && (sub.highSeq <= floor || sub.highSeq in log)
  }

  /** No event below index k is still to be sent. */
  ghost predicate Past(sub: Subscriber, log: seq<nat>, floor: nat, k: nat) {
    0 < k <= |log| ==> log[k - 1] <= floor || log[k - 1] <= sub.highSeq
  }

  /** What is published before the subscriber joins, its backfill has to cover. */
  ghost predicate Reaches(hub: seq<nat>, joined: nat, high: nat) {
    forall i :: 0 <= i < joined <= |hub| ==> hub[i] <= high
  }

  /** A subscriber that has only been paging: everything up to its mark, or nothing without a backfill. */
  ghost predicate Paged(sub: Subscriber, log: seq<nat>) {
    Sent(sub, log, sub.afterSeq) && sub.afterSeq <= sub.highSeq && (sub.afterSeq == 0 ==> sub.highSeq == 0)
  }

  ghost predicate Backfilling(s: System)
    requires s.joined <= |s.hub| && !s.phase.Live?
  {
    && Paged(s.sub, s.log) && !s.sub.backfillDone
    && SeqsOf(s.sub.buffer) == s.hub[s.joined..] && s.sub.highSeq == s.phase.cursor
    && (s.phase.Holding? ==>
          && s.sub.afterSeq > 0 && s.phase.read <= |s.log|
          && (forall i :: 0 <= i < s.joined ==> s.hub[i] in s.log[..s.phase.read])
          && s.phase.page == Query(Same, s.log[..s.phase.read], s.phase.cursor, PAGE_SIZE))
  }

  /** After the backfill the subscriber is offered what was published since it joined, in that order. */
  ghost predicate Follows(hub: seq<nat>, joined: nat, mark: Subscriber, sub: Subscriber)
    requires joined <= |hub|
  {
    && sub == Followed(mark, hub[joined..]) && sub.afterSeq == mark.afterSeq
    && (mark.afterSeq > 0 ==> Reaches(hub, joined, mark.highSeq))
  }

  ghost predicate Following(s: System)
    requires s.joined <= |s.hub|
  {
    Paged(s.mark, s.log) && Follows(s.hub, s.joined, s.mark, s.sub)
  }

  ghost predicate Invariant(s: System) {
    && Sorted(Same, s.log) && Positive(s.log) && Published(s.log, s.hub) && s.joined <= |s.hub|
    && if s.phase.Live? then Following(s) else Backfilling(s)
  }

  /** A range of sequence numbers is a slice of the log. */
  lemma {:induction false} BetweenIsSlice(log: seq<nat>, lo: nat, hi: nat, a: nat, b: nat)
    requires Sorted(Same, log) && At(Same, log, lo, a) && At(Same, log, hi, b)
    ensures Between(log, lo, hi) == if a <= b then log[a..b] else []
  {
    forall i | 0 <= i < |log| ensures lo < log[i] <= hi <==> a <= i < b {
      if a < i { assert Same(log[a]) < Same(log[i]); }
      if b < i { assert Same(log[b]) < Same(log[i]); }
      if i < a - 1 { assert Same(log[i]) < Same(log[a - 1]); }
      if i < b - 1 { assert Same(log[i]) < Same(log[b - 1]); }
    }
    if a <= b {
      FilterSlice((n: nat) => lo < n <= hi, log, a, b);
    } else {
      FilterSlice((n: nat) => lo < n <= hi, log, b, b);
    }
  }

  lemma {:induction false} SliceNext<T>(s: seq<T>, lo: nat, k: nat)
    requires lo <= k < |s|
    ensures s[lo..k + 1] == s[lo..k] + [s[k]]
  {}

  /** The next event extends the range by itself. */
  lemma {:induction false} BetweenNext(log: seq<nat>, floor: nat, high: nat, k: nat)
    requires Sorted(Same, log) && k < |log| && floor < log[k] && high < log[k]
    requires k > 0 ==> log[k - 1] <= floor || log[k - 1] <= high
    ensures Between(log, floor, log[k]) == Between(log, floor, high) + [log[k]]
  {
    var a := SlicesAround(log, floor, high, k);
    SliceNext(log, a, k);
  }

  lemma {:induction false} SlicesAround(log: seq<nat>, floor: nat, high: nat, k: nat) returns (a: nat)
    requires Sorted(Same, log) && k < |log| && floor < log[k] && high < log[k]
    requires k > 0 ==> log[k - 1] <= floor || log[k - 1] <= high
    ensures a <= k && Between(log, floor, high) == log[a..k] && Between(log, floor, log[k]) == log[a..k + 1]
  {
    if k + 1 < |log| { assert Same(log[k]) < Same(log[k + 1]); }
    a := Position(Same, log, floor);
    var b := Position(Same, log, high);
    Ordered(log, floor, a, k);
    Ordered(log, high, b, k);
    BetweenIsSlice(log, floor, high, a, b);
    BetweenIsSlice(log, floor, log[k], a, k + 1);
  }

  /** A cursor below the event at k stands no later than k; if it is past the one before, it stands there. */
  lemma {:induction false} Ordered(log: seq<nat>, n: nat, b: nat, k: nat)
    requires Sorted(Same, log) && k < |log| && n < log[k] && At(Same, log, n, b)
    ensures b <= k && (k > 0 && log[k - 1] <= n ==> b == k)
  {
    if b < k { assert b < k - 1 ==> Same(log[b]) < Same(log[k - 1]); }
  }

  /** Offering the first event not yet past, or one already past, keeps exactly the sent range. */
  lemma {:induction false} OfferNext(sub: Subscriber, log: seq<nat>, floor: nat, k: nat)
    requires Sorted(Same, log) && k < |log| && Sent(sub, log, floor) && Past(sub, log, floor, k)
    requires floor < log[k] || floor <= sub.highSeq
    ensures Sent(Offer(sub, log[k]), log, floor) && Past(Offer(sub, log[k]), log, floor, k + 1)
  {
    if log[k] > sub.highSeq {
      BetweenNext(log, floor, sub.highSeq, k);
    }
  }

  lemma {:induction false} InOrderAt(log: seq<nat>, i: nat, j: nat)
    requires Sorted(Same, log) && i <= j < |log|
    ensures log[i] <= log[j]
  {
    assert Same(log[i]) <= Same(log[j]);
  }

  ghost predicate OnlySends(s: Subscriber, s': Subscriber) {
    && s' == s.(highSeq := s'.highSeq, emitted := s'.emitted)
    && s.highSeq <= s'.highSeq
  }

  lemma {:induction false} OfferAllSlice(sub: Subscriber, log: seq<nat>, lo: nat, hi: nat)
    requires lo < hi <= |log|
    ensures OfferAll(sub, log[lo..hi]) == Offer(OfferAll(sub, log[lo..hi - 1]), log[hi - 1])
  {
    assert log[lo..hi][..hi - lo - 1] == log[lo..hi - 1];
  }

  /** From `sub` on, everything below index k has been offered, and nothing but sending was done. */
  ghost predicate BroughtTo(sub: Subscriber, r: Subscriber, log: seq<nat>, floor: nat, k: nat) {
    Sent(r, log, floor) && Past(r, log, floor, k) && OnlySends(sub, r)
  }

  lemma {:induction false} BroughtOneFurther(sub: Subscriber, r: Subscriber, log: seq<nat>, floor: nat, lo: nat, k: nat)
    requires Sorted(Same, log) && lo <= k < |log| && BroughtTo(sub, r, log, floor, k)
    requires floor < log[lo] || floor <= sub.highSeq
    ensures BroughtTo(sub, Offer(r, log[k]), log, floor, k + 1)
  {
    InOrderAt(log, lo, k);
    OfferNext(r, log, floor, k);
  }

  /** The same for a stretch of the log that starts no later than the first event not yet past. */
  lemma {:induction false} OfferStretch(sub: Subscriber, log: seq<nat>, floor: nat, lo: nat, hi: nat)
    requires Sorted(Same, log) && lo <= hi <= |log| && Sent(sub, log, floor) && Past(sub, log, floor, lo)
    requires lo < |log| ==> floor < log[lo] || floor <= sub.highSeq
    ensures BroughtTo(sub, OfferAll(sub, log[lo..hi]), log, floor, hi)
    decreases hi
  {
    if lo < hi {
      OfferStretch(sub, log, floor, lo, hi - 1);
      OfferAllSlice(sub, log, lo, hi);
      var r := OfferAll(sub, log[lo..hi - 1]);
      BroughtOneFurther(sub, r, log, floor, lo, hi - 1);
    } else {
      assert log[lo..hi] == [];
    }
  }

  /** Later commits add nothing at or below the high-water mark. */
  lemma {:induction false} BetweenStable(log: seq<nat>, batch: seq<nat>, floor: nat, high: nat)
    requires Sorted(Same, log + batch) && (high <= floor || high in log)
    ensures Between(log + batch, floor, high) == Between(log, floor, high)
  {
    FilterAppend((n: nat) => floor < n <= high, log, batch);
    forall j | 0 <= j < |batch| ensures !(floor < batch[j] <= high) {
      if high in log {
        var i :| 0 <= i < |log| && log[i] == high;
        assert Same((log + batch)[i]) < Same((log + batch)[|log| + j]);
      }
    }
    FilterSlice((n: nat) => floor < n <= high, batch, 0, 0);
  }

  lemma {:induction false} NothingBetween(log: seq<nat>, lo: nat, hi: nat)
    requires hi <= lo
    ensures Between(log, lo, hi) == []
    decreases |log|
  {
    FilterSlice((n: nat) => lo < n <= hi, log, 0, 0);
  }

  lemma {:induction false} SeqsOfAppend(ms: seq<Message>, m: Message)
    ensures SeqsOf(ms + [m]) == SeqsOf(ms) + if m.EventMessage? then [m.seqNo] else []
  {
    assert (ms + [m])[..|ms|] == ms;
  }

  lemma {:induction false} NothingLeft(log: seq<nat>, floor: nat, high: nat)
    requires Sorted(Same, log) && (log != [] ==> log[|log| - 1] <= floor || log[|log| - 1] <= high)
    ensures Between(log, floor, high) == Above(log, floor)
  {
    var a := Position(Same, log, floor);
    forall i | 0 <= i < |log| ensures (floor < log[i] <==> a <= i) && (floor < log[i] <= high <==> a <= i) {
      assert Same(log[i]) <= Same(log[|log| - 1]);
      if a < i { assert Same(log[a]) < Same(log[i]); }
      if i < a - 1 { assert Same(log[i]) < Same(log[a - 1]); }
    }
    FilterSlice((n: nat) => n > floor, log, a, |log|);
    FilterSlice((n: nat) => floor < n <= high, log, a, |log|);
  }

  // ---- Every step keeps the invariant ---------------------------------------------------------

  lemma {:induction false} PagedStable(sub: Subscriber, log: seq<nat>, batch: seq<nat>)
    requires Paged(sub, log) && Sorted(Same, log + batch)
    ensures Paged(sub, log + batch)
  {
    BetweenStable(log, batch, sub.afterSeq, sub.highSeq);
  }

  lemma {:induction false} CommitKeeps(s: System, s': System, batch: seq<nat>)
    requires Invariant(s) && Does(s, Commit(batch), s')
    ensures Invariant(s')
  {
    PagedStable(if s.phase.Live? then s.mark else s.sub, s.log, batch);
    if s.phase.Holding? { assert s'.log[..s.phase.read] == s.log[..s.phase.read]; }
  }

  lemma {:induction false} HubGrows(log: seq<nat>, hub: seq<nat>, joined: nat, n: nat)
    requires Published(log, hub) && joined <= |hub| && n in log && n !in hub
    ensures Published(log, hub + [n]) && (hub + [n])[joined..] == hub[joined..] + [n]
  {}

  function Followed(mark: Subscriber, since: seq<nat>): Subscriber {
    OfferAll(mark, since).(backfillDone := true, buffer := [])
  }

  lemma {:induction false} FollowOne(mark: Subscriber, since: seq<nat>, n: nat)
    ensures Followed(mark, since + [n]) == Receive(Followed(mark, since), EventMessage(n))
  {
    assert (since + [n])[..|since|] == since;
  }

  lemma {:induction false} FollowsOneMore(hub: seq<nat>, joined: nat, mark: Subscriber, sub: Subscriber, n: nat)
    requires joined <= |hub| && Follows(hub, joined, mark, sub)
    ensures Follows(hub + [n], joined, mark, Receive(sub, EventMessage(n)))
  {
    assert (hub + [n])[joined..] == hub[joined..] + [n];
    FollowOne(mark, hub[joined..], n);
    assert forall i :: 0 <= i < joined ==> (hub + [n])[i] == hub[i];
  }

  lemma {:induction false} HeldPublishKeeps(s: System, s': System, n: nat)
    requires s.joined <= |s.hub| && !s.phase.Live? && Backfilling(s) && Does(s, Publish(n), s')
    ensures Backfilling(s')
  {
    assert s'.hub[s.joined..] == s.hub[s.joined..] + [n];
    assert forall i :: 0 <= i < s.joined ==> s'.hub[i] == s.hub[i];
    SeqsOfAppend(s.sub.buffer, EventMessage(n));
  }

  lemma {:induction false} PublishKeeps(s: System, s': System, n: nat)
    requires Invariant(s) && Does(s, Publish(n), s')
    ensures Invariant(s')
  {
    HubGrows(s.log, s.hub, s.joined, n);
    if s.phase.Live? { FollowsOneMore(s.hub, s.joined, s.mark, s.sub, n); } else { HeldPublishKeeps(s, s', n); }
  }

  lemma {:induction false} SnapshotKeeps(s: System, s': System)
    requires Invariant(s) && Does(s, PublishSnapshot, s')
    ensures Invariant(s')
  {
    if !s.phase.Live? { SeqsOfAppend(s.sub.buffer, SnapshotMessage); }
  }

  lemma {:induction false} OfferAllFrame(sub: Subscriber, ns: seq<nat>)
    ensures OfferAll(sub, ns).afterSeq == sub.afterSeq && OfferAll(sub, ns).buffer == sub.buffer
    ensures OfferAll(sub, ns).backfillDone == sub.backfillDone
    decreases |ns|
  {
    if ns != [] { OfferAllFrame(sub, ns[..|ns| - 1]); }
  }

  /** A page held is a slice of the log from the first event not yet past. */
  lemma {:induction false} PageIsSlice(s: System) returns (k: nat)
    requires Invariant(s) && s.phase.Holding?
    ensures var hi := k + |s.phase.page|;
      && hi <= s.phase.read && s.phase.page == s.log[k..hi]
      && (k > 0 ==> s.log[k - 1] <= s.sub.highSeq)
      && (k < hi ==> s.sub.highSeq < s.log[k])
      && (|s.phase.page| < PAGE_SIZE ==> hi == s.phase.read)
  {
    var rows := s.log[..s.phase.read];
    assert Sorted(Same, rows);
    k := Position(Same, rows, s.sub.highSeq);
    QueryIsSlice(Same, rows, s.sub.highSeq, PAGE_SIZE, k);
  }

  /** Having passed the end of what was read, the subscriber has passed everything published before it joined. */
  lemma {:induction false} CoversJoined(s: System, sub: Subscriber, read: nat)
    requires Sorted(Same, s.log) && read <= |s.log| && s.joined <= |s.hub| && Past(sub, s.log, sub.afterSeq, read)
      && sub.afterSeq <= sub.highSeq
    requires forall i :: 0 <= i < s.joined ==> s.hub[i] in s.log[..read]
    ensures Reaches(s.hub, s.joined, sub.highSeq)
  {
    forall i | 0 <= i < s.joined ensures s.hub[i] <= sub.highSeq {
      assert s.hub[i] in s.log[..read];
      var k :| 0 <= k < read && s.log[..read][k] == s.hub[i];
      assert Same(s.log[k]) <= Same(s.log[read - 1]);
    }
  }

  /** One page, full or short, leaves a paged subscriber past its end. */
  lemma {:induction false} PageOffered(s: System) returns (hi: nat)
    requires Invariant(s) && s.phase.Holding?
    ensures hi <= s.phase.read && BroughtTo(s.sub, OfferAll(s.sub, s.phase.page), s.log, s.sub.afterSeq, hi)
    ensures |s.phase.page| < PAGE_SIZE ==> hi == s.phase.read
  {
    var k := PageIsSlice(s);
    hi := k + |s.phase.page|;
    OfferStretch(s.sub, s.log, s.sub.afterSeq, k, hi);
  }

  lemma {:induction false} FullPageEndsAtCursor(s: System)
    requires Invariant(s) && s.phase.Holding? && s.phase.page != []
    ensures OfferAll(s.sub, s.phase.page).highSeq == s.phase.page[|s.phase.page| - 1]
  {
    var k := PageIsSlice(s);
    var hi := k + |s.phase.page|;
    EndsAtLast(s.sub, s.log, k, hi);
    assert s.phase.page[|s.phase.page| - 1] == s.log[hi - 1];
  }

  /** Offering a stretch that starts past the mark moves the mark to its end. */
  lemma {:induction false} EndsAtLast(sub: Subscriber, log: seq<nat>, k: nat, hi: nat)
    requires Sorted(Same, log) && k < hi <= |log| && sub.highSeq < log[k]
    ensures OfferAll(sub, log[k..hi]).highSeq == log[hi - 1]
    decreases hi
  {
    OfferAllSlice(sub, log, k, hi);
    if k < hi - 1 {
      EndsAtLast(sub, log, k, hi - 1);
      assert Same(log[hi - 2]) < Same(log[hi - 1]);
    } else {
      assert log[k..hi - 1] == [];
    }
  }

  lemma {:induction false} PageKeeps(s: System, s': System)
    requires Invariant(s) && Does(s, EmitPage, s')
    ensures Invariant(s')
  {
    var hi := PageOffered(s);
    var sub := OfferAll(s.sub, s.phase.page);
    if |s.phase.page| < PAGE_SIZE {
      CoversJoined(s, sub, hi);
      OfferAllFrame(sub, SeqsOf(sub.buffer));
    } else {
      FullPageEndsAtCursor(s);
    }
  }

  lemma {:induction false} StepKeeps(s: System, s': System)
    requires Invariant(s) && Next(s, s')
    ensures Invariant(s')
  {
    var a: Action :| Does(s, a, s');
    match a
    case Commit(batch) => CommitKeeps(s, s', batch);
    case Publish(n) => PublishKeeps(s, s', n);
    case PublishSnapshot => SnapshotKeeps(s, s');
    case ReadPage => assert s.log[..|s.log|] == s.log;
    case EmitPage => PageKeeps(s, s');
    case SkipBackfill => OfferAllFrame(s.sub, SeqsOf(s.sub.buffer));
  }

  lemma {:induction false} InvariantHolds(tr: seq<System>, i: nat)
    requires Run(tr) && i < |tr|
    ensures Invariant(tr[i])
  {
    if i == 0 {
      NothingBetween(tr[0].log, tr[0].sub.afterSeq, tr[0].sub.highSeq);
    } else {
      InvariantHolds(tr, i - 1);
      StepKeeps(tr[i - 1], tr[i]);
    }
  }

  // ---- Publication in any order ---------------------------------------------------------------

  ghost predicate AllPublished(s: System) { forall n :: n in s.log ==> n in s.hub }

  lemma {:induction false} SortedAscending(log: seq<nat>, lo: nat, hi: nat)
    requires Sorted(Same, log) && lo <= hi <= |log|
    ensures Ascending(log[lo..hi])
  {
    forall i, j | 0 <= i < j < hi - lo ensures log[lo..hi][i] < log[lo..hi][j] {
      assert Same(log[lo + i]) < Same(log[lo + j]);
    }
  }

  lemma {:induction false} WithoutLast(a: seq<nat>)
    requires Ascending(a) && a != []
    ensures var m := |a| - 1;
      && Ascending(a[..m]) && (forall x :: x in a[..m] <==> x in a && x != a[m]) && (forall x :: x in a ==> x <= a[m])
  {
    var m := |a| - 1;
    assert a == a[..m] + [a[m]];
    forall x | x in a[..m] ensures x < a[m] {
      var i :| 0 <= i < m && a[..m][i] == x;
    }
  }

  ghost predicate SameNumbers(a: seq<nat>, b: seq<nat>) { forall n :: n in a <==> n in b }

  lemma {:induction false} LastsAgree(a: seq<nat>, b: seq<nat>)
    requires Ascending(a) && Ascending(b) && SameNumbers(a, b) && a != [] && b != []
    ensures a[|a| - 1] == b[|b| - 1] && SameNumbers(a[..|a| - 1], b[..|b| - 1])
    ensures Ascending(a[..|a| - 1]) && Ascending(b[..|b| - 1])
  {
    assert a[|a| - 1] in a && b[|b| - 1] in b;
    WithoutLast(a);
    WithoutLast(b);
  }

  lemma {:induction false} SameEmpty(a: seq<nat>, b: seq<nat>)
    requires SameNumbers(a, b)
    ensures a == [] <==> b == []
  {
    if a != [] { assert a[0] in a && a[0] in b; }
    if b != [] { assert b[0] in b && b[0] in a; }
  }

  /** Two ascending lists of the same numbers are the same list. */
  lemma {:induction false} AscendingSame(a: seq<nat>, b: seq<nat>)
    requires Ascending(a) && Ascending(b) && SameNumbers(a, b)
    ensures a == b
    decreases |a|
  {
    SameEmpty(a, b);
    if a != [] {
      LastsAgree(a, b);
      AscendingSame(a[..|a| - 1], b[..|b| - 1]);
      assert a == a[..|a| - 1] + [a[|a| - 1]] && b == b[..|b| - 1] + [b[|b| - 1]];
    }
  }

  /** The log above a cursor, cut at a later one. */
  lemma {:induction false} AboveSplits(log: seq<nat>, lo: nat, hi: nat)
    requires Sorted(Same, log) && lo <= hi
    ensures Above(log, lo) == Between(log, lo, hi) + Above(log, hi)
    ensures Ascending(Above(log, hi))
  {
    var a := Position(Same, log, lo);
    var b := Position(Same, log, hi);
    PositionsOrdered(log, lo, hi, a, b);
    BetweenIsSlice(log, lo, hi, a, b);
    AboveIsSlice(log, lo, a);
    AboveIsSlice(log, hi, b);
    SortedAscending(log, b, |log|);
    SliceJoin(log, a, b);
  }

  lemma {:induction false} PositionsOrdered(log: seq<nat>, lo: nat, hi: nat, a: nat, b: nat)
    requires Sorted(Same, log) && lo <= hi && At(Same, log, lo, a) && At(Same, log, hi, b)
    ensures a <= b
  {
    if b < |log| { Ordered(log, lo, a, b); }
  }

  lemma {:induction false} SliceJoin<T>(s: seq<T>, a: nat, b: nat)
    requires a <= b <= |s|
    ensures s[a..] == s[a..b] + s[b..] && s[b..|s|] == s[b..]
  {}

  lemma {:induction false} AboveIsSlice(log: seq<nat>, lo: nat, a: nat)
    requires Sorted(Same, log) && At(Same, log, lo, a)
    ensures Above(log, lo) == log[a..]
  {
    forall i | 0 <= i < |log| ensures log[i] > lo <==> a <= i < |log| {
      if a < i { assert Same(log[a]) < Same(log[i]); }
      if i < a - 1 { assert Same(log[i]) < Same(log[a - 1]); }
    }
    FilterSlice((n: nat) => n > lo, log, a, |log|);
  }

  /** What is new to the subscriber when it goes live, in the order the hub published it. */
  function News(s: System): seq<nat>
    requires s.joined <= |s.hub|
  {
    Fresh(s.mark.highSeq, s.hub[s.joined..])
  }

  /** What is published but past what the subscriber had when it joined was published since. */
  lemma {:induction false} PublishedSince(hub: seq<nat>, joined: nat, high: nat, n: nat)
    requires joined <= |hub| && Reaches(hub, joined, high) && n > high
    ensures n in hub ==> n in hub[joined..]
  {
    if n in hub {
      var i :| 0 <= i < |hub| && hub[i] == n;
      assert hub[joined..][i - joined] == n;
    }
  }

  /** With everything published, the news is exactly the log above the mark. */
  lemma {:induction false} NewsIsTheRest(s: System)
    requires Invariant(s) && s.phase.Live? && AllPublished(s) && (s.sub.afterSeq > 0 || s.joined == 0)
    ensures SameNumbers(News(s), Above(s.log, s.mark.highSeq))
  {
    RestOfTheHub(s.log, s.hub, s.joined, s.mark.highSeq);
  }

  lemma {:induction false} RestOfTheHub(log: seq<nat>, hub: seq<nat>, joined: nat, high: nat)
    requires SameNumbers(log, hub) && joined <= |hub| && Reaches(hub, joined, high)
    ensures SameNumbers(Fresh(high, hub[joined..]), Above(log, high))
  {
    FreshMembers(high, hub[joined..]);
    FilterMembers((n: nat) => n > high, log);
    forall n | n in log && n > high ensures n in hub[joined..] {
      PublishedSince(hub, joined, high, n);
    }
  }

  /**
   * The exact condition, wherever commits and publications fall relative to the backfill and in
   * whatever order the hub publishes: once live with everything published, a subscriber was sent
   * every event after the seq it named, once each and in order, if and only if it named one or
   * joined before anything was published, and what was new to it when it went live was published
   * in ascending order.
   */
  lemma {:induction false} NothingMissedIff(tr: seq<System>, i: nat)
    requires Run(tr) && i < |tr| && tr[i].phase.Live? && AllPublished(tr[i])
    ensures tr[i].joined <= |tr[i].hub|
    ensures tr[i].sub.emitted == Above(tr[i].log, tr[i].sub.afterSeq)
       <==> (tr[i].sub.afterSeq > 0 || tr[i].joined == 0) && Ascending(News(tr[i]))
  {
    InvariantHolds(tr, i);
    var s := tr[i];
    if s.sub.afterSeq > 0 || s.joined == 0 {
      NewsIsTheRest(s);
      AboveSplits(s.log, s.sub.afterSeq, s.mark.highSeq);
      LosesNothingIff(s.mark, s.hub[s.joined..]);
      if Ascending(News(s)) {
        AscendingSame(News(s), Above(s.log, s.mark.highSeq));
      } else if s.sub.emitted == Above(s.log, s.sub.afterSeq) {
        EverythingSentAscends(s);
      }
    } else {
      FirstWasMissed(s);
    }
  }

  lemma {:induction false} EverythingSentAscends(s: System)
    requires Invariant(s) && s.phase.Live? && s.sub.emitted == Above(s.log, s.sub.afterSeq)
    ensures Ascending(News(s))
  {
    var since := s.hub[s.joined..];
    FreshMembers(s.mark.highSeq, since);
    FilterMembers((n: nat) => s.mark.afterSeq < n <= s.mark.highSeq, s.log);
    FilterMembers((n: nat) => n > s.sub.afterSeq, s.log);
    forall n | n in News(s) ensures n in OfferAll(s.mark, since).emitted {
      assert n in s.hub;
    }
    AllSentAscending(s.mark, since);
  }

  /** Without a backfill, what was published before joining is never sent. */
  lemma {:induction false} FirstWasMissed(s: System)
    requires Invariant(s) && s.phase.Live? && s.sub.afterSeq == 0 && s.joined > 0
    ensures s.sub.emitted != Above(s.log, 0)
  {
    var first := s.hub[0];
    assert first in s.hub && first in s.log;
    FilterMembers((n: nat) => n > 0, s.log);
    assert first in Above(s.log, 0);
    NothingBetween(s.log, 0, 0);
    OnlyOffered(s.mark, s.hub[s.joined..]);
    assert first !in s.hub[s.joined..];
  }

  lemma {:induction false} OnlyOffered(s: Subscriber, ns: seq<nat>)
    ensures forall n :: n in OfferAll(s, ns).emitted ==> n in s.emitted || n in ns
    decreases |ns|
  {
    if ns != [] {
      OnlyOffered(s, ns[..|ns| - 1]);
      assert ns == ns[..|ns| - 1] + [ns[|ns| - 1]];
    }
  }

  // ---- Publication in sequence order ----------------------------------------------------------

  /** The hub has published the log in order, up to somewhere. */
  ghost predicate InOrder(s: System) { |s.hub| <= |s.log| && s.hub == s.log[..|s.hub|] }

  /**
   * Where this subscriber's events start: where it asked to, or, without a backfill, at what was
   * published when it joined.
   */
  function Floor(s: System): nat {
    if s.sub.afterSeq > 0 || s.joined == 0 || s.joined > |s.hub| then s.sub.afterSeq else s.hub[s.joined - 1]
  }

  lemma {:induction false} PagedFromFloor(sub: Subscriber, log: seq<nat>, floor: nat)
    requires Paged(sub, log) && (sub.afterSeq > 0 ==> floor == sub.afterSeq)
    ensures Sent(sub, log, floor)
  {
    if sub.afterSeq == 0 {
      NothingBetween(log, 0, 0);
      NothingBetween(log, floor, 0);
    }
  }

  /**
   * With publication in sequence order the handoff is seamless.  At every moment the subscriber has
   * been sent exactly the events of the log between its floor and its high-water mark, each once
   * and in order; and once it is live and the hub has caught up with the log, every event above
   * its floor.
   */
  lemma {:induction false} HandoffComplete(tr: seq<System>, i: nat)
    requires Run(tr) && i < |tr| && InOrder(tr[i])
    ensures var s := tr[i];
      && s.sub.emitted == Between(s.log, Floor(s), s.sub.highSeq)
      && (s.phase.Live? && |s.hub| == |s.log| ==> s.sub.emitted == Above(s.log, Floor(s)))
  {
    InvariantHolds(tr, i);
    var s := tr[i];
    if s.phase.Live? {
      LiveInOrder(s);
      if |s.hub| == |s.log| { NothingLeft(s.log, Floor(s), s.sub.highSeq); }
    } else {
      PagedFromFloor(s.sub, s.log, Floor(s));
    }
  }

  lemma {:induction false} LiveInOrder(s: System)
    requires Invariant(s) && s.phase.Live? && InOrder(s)
    ensures Sent(s.sub, s.log, Floor(s)) && Past(s.sub, s.log, Floor(s), |s.hub|)
  {
    var j, floor := s.joined, Floor(s);
    assert s.hub[j..] == s.log[j..|s.hub|];
    assert forall k :: 0 <= k < |s.hub| ==> s.hub[k] == s.log[k];
    PagedFromFloor(s.mark, s.log, floor);
    if 0 < j < |s.log| { assert Same(s.log[j - 1]) < Same(s.log[j]); }
    OfferStretch(s.mark, s.log, floor, j, |s.hub|);
  }

  // ---- Publication out of order ---------------------------------------------------------------

  lemma {:induction false} RunAppend(tr: seq<System>, a: Action, s: System)
    requires Run(tr) && Does(tr[|tr| - 1], a, s)
    ensures Run(tr + [s])
  {}

  /** A subscriber naming the last event goes live after one empty page. */
  lemma {:induction false} LiveAt(a: nat) returns (tr: seq<System>)
    requires a > 0
    ensures Run(tr) && tr[0].sub == Connect(a)
    ensures tr[|tr| - 1] == System([a], [a], 1, GoLive(Connect(a)), Live, Connect(a))
  {
    var c := Connect(a);
    var s0 := System([a], [a], 1, c, Reading(a), c);
    var s1 := s0.(phase := Holding(a, [], 1));
    QueryIsSlice(Same, [a], a, PAGE_SIZE, 1);
    assert Does(s0, ReadPage, s1);
    assert OfferAll(c, []) == c && Does(s1, EmitPage, GoneLive(s1, c));
    tr := [s0, s1, GoneLive(s1, c)];
  }

  /** Two events are committed after it. */
  lemma {:induction false} TwoCommits(a: nat) returns (tr: seq<System>)
    requires a > 0
    ensures Run(tr) && tr[0].sub == Connect(a)
    ensures tr[|tr| - 1] == System([a, a + 1, a + 2], [a], 1, GoLive(Connect(a)), Live, Connect(a))
  {
    tr := LiveAt(a);
    var s := tr[|tr| - 1];
    var s1 := s.(log := [a, a + 1]);
    assert [a] + [a + 1] == [a, a + 1] && Does(s, Commit([a + 1]), s1);
    RunAppend(tr, Commit([a + 1]), s1);
    var s2 := s1.(log := [a, a + 1, a + 2]);
    assert [a, a + 1] + [a + 2] == [a, a + 1, a + 2] && Does(s1, Commit([a + 2]), s2);
    RunAppend(tr + [s1], Commit([a + 2]), s2);
    tr := tr + [s1] + [s2];
  }

  /**
   * A run of the system in which two commits are published in reverse: the subscriber is live,
   * everything is published, and the first of the two is never sent.
   */
  lemma {:induction false} ReversedPublicationDrops(a: nat) returns (tr: seq<System>)
    requires a > 0
    ensures Run(tr) && tr[0].sub == Connect(a)
    ensures var s := tr[|tr| - 1];
      s.phase.Live? && AllPublished(s) && s.log == [a, a + 1, a + 2] && s.hub == [a, a + 2, a + 1] && s.sub.emitted == [a + 2]
  {
    tr := TwoCommits(a);
    var s := tr[|tr| - 1];
    assert s.log[1] == a + 1 && s.log[2] == a + 2 && s.sub == Subscriber(a, a, [], [], true);
    var s1 := s.(hub := [a, a + 2], sub := s.sub.(highSeq := a + 2, emitted := [a + 2]));
    assert [a] + [a + 2] == [a, a + 2] && Does(s, Publish(a + 2), s1);
    RunAppend(tr, Publish(a + 2), s1);
    var s2 := s1.(hub := [a, a + 2, a + 1]);
    assert [a, a + 2] + [a + 1] == [a, a + 2, a + 1] && Does(s1, Publish(a + 1), s2);
    RunAppend(tr + [s1], Publish(a + 1), s2);
    tr := tr + [s1] + [s2];
  }
}
