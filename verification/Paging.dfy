/**
 * Keyset paging over the canonical log, and the replay stream built on it.  `key` gives a row's
 * sequence number; nothing else about the rows matters.
 */
module Paging {
  import opened Prelude

  ghost predicate Sorted<T>(key: T -> nat, rows: seq<T>) {
    forall i, j :: 0 <= i < j < |rows| ==> key(rows[i]) < key(rows[j])
  }

  /** `listCanonicalByRun`: of the rows with seq above the cursor, the first `limit`. */
  function Query<T>(key: T -> nat, rows: seq<T>, after: int, limit: nat): seq<T> {
    var above := Filter((r: T) => key(r) > after, rows);
    if |above| <= limit then above else above[..limit]
  }

  /** The cursor n stands before row k: k rows are at or below n, the others above. */
  ghost predicate At<T>(key: T -> nat, rows: seq<T>, n: int, k: nat) {
    && k <= |rows|
    && (k > 0 ==> key(rows[k - 1]) <= n)
    && (k < |rows| ==> key(rows[k]) > n)
  }

  /** Every cursor stands somewhere. */
  lemma {:induction false} Position<T>(key: T -> nat, rows: seq<T>, n: int) returns (k: nat)
    requires Sorted(key, rows)
    ensures At(key, rows, n, k)
  {
    k := 0;
    while k < |rows| && key(rows[k]) <= n
      invariant k <= |rows| && (k > 0 ==> key(rows[k - 1]) <= n)
    {
      k := k + 1;
    }
  }

  lemma {:induction false} FilterSlice<T>(keep: T -> bool, rows: seq<T>, lo: nat, hi: nat)
    requires lo <= hi <= |rows|
    requires forall i :: 0 <= i < |rows| ==> (keep(rows[i]) <==> lo <= i < hi)
    ensures Filter(keep, rows) == rows[lo..hi]
    decreases |rows|
  {
    if rows != [] {
      var n := |rows| - 1;
      var front := rows[..n];
      assert forall i :: 0 <= i < n ==> front[i] == rows[i];
      if hi <= n {
        FilterSlice(keep, front, lo, hi);
        assert front[lo..hi] + [] == rows[lo..hi];
      } else if lo <= n {
        FilterSlice(keep, front, lo, n);
        assert rows[lo..hi] == front[lo..n] + [rows[n]];
      } else {
        FilterSlice(keep, front, n, n);
      }
    }
  }

  lemma {:induction false} AtSplits<T>(key: T -> nat, rows: seq<T>, n: int, k: nat)
    requires Sorted(key, rows) && At(key, rows, n, k)
    ensures forall i :: 0 <= i < |rows| ==> (key(rows[i]) > n <==> k <= i)
  {
    forall i | 0 <= i < |rows| ensures key(rows[i]) > n <==> k <= i {
      if k < i { assert key(rows[k]) < key(rows[i]); }
      if i < k - 1 { assert key(rows[i]) < key(rows[k - 1]); }
    }
  }

  /** A page is a slice: it starts right after the cursor, skips nothing, and only a short one reaches the end. */
  lemma {:induction false} QueryIsSlice<T>(key: T -> nat, rows: seq<T>, after: int, limit: nat, k: nat)
    requires Sorted(key, rows) && At(key, rows, after, k)
    ensures Query(key, rows, after, limit) == rows[k..if |rows| - k <= limit then |rows| else k + limit]
  {
    AtSplits(key, rows, after, k);
    FilterSlice((r: T) => key(r) > after, rows, k, |rows|);
  }

  method FetchPage<T>(key: T -> nat, rows: seq<T>, after: int, limit: nat, ghost k: nat) returns (page: seq<T>)
    requires Sorted(key, rows) && At(key, rows, after, k)
    ensures |page| <= limit && k + |page| <= |rows| && page == rows[k..k + |page|]
    ensures |page| < limit ==> k + |page| == |rows|
  {
    page := Query(key, rows, after, limit);
    QueryIsSlice(key, rows, after, limit, k);
  }

  predicate InRange(n: nat, from: int, to: Option<int>) { from <= n && (to.Some? ==> n <= to.value) }

  /** The stored rows of the range, in order: what a replay should emit. */
  function Requested<T>(key: T -> nat, rows: seq<T>, from: int, to: Option<int>): seq<T> {
    Filter((r: T) => InRange(key(r), from, to), rows)
  }

  /** Emitted so far: the rows from lo up to the cursor, none of them past the end of the range. */
  ghost predicate Progress<T>(key: T -> nat, rows: seq<T>, lo: nat, k: nat, after: int, to: Option<int>, out: seq<T>) {
    && lo <= k && At(key, rows, after, k) && out == rows[lo..k]
    && (k > lo && to.Some? ==> key(rows[k - 1]) <= to.value)
  }

  lemma {:induction false} EmitOne<T>(key: T -> nat, rows: seq<T>, lo: nat, k: nat, after: int, to: Option<int>,
      out: seq<T>)
    requires Sorted(key, rows) && Progress(key, rows, lo, k, after, to, out)
    requires k < |rows| && (to.Some? ==> key(rows[k]) <= to.value)
    ensures Progress(key, rows, lo, k + 1, key(rows[k]), to, out + [rows[k]])
  {}

  /** One page: emit rows until it ends or the range does. */
  method EmitPage<T>(key: T -> nat, page: seq<T>, to: Option<int>, after: int, out: seq<T>,
                     ghost rows: seq<T>, ghost from: int, ghost lo: nat, ghost k: nat)
    returns (out': seq<T>, last: int, n: nat, stopped: bool)
    requires Sorted(key, rows) && Progress(key, rows, lo, k, after, to, out) && Anchored(key, rows, from, lo, k, after)
    requires k + |page| <= |rows| && page == rows[k..k + |page|]
    ensures n <= |page| && Progress(key, rows, lo, k + n, last, to, out') && Anchored(key, rows, from, lo, k + n, last)
    ensures if stopped then k + n < |rows| && to.Some? && key(rows[k + n]) > to.value else n == |page|
  {
    out', last, n, stopped := out, after, 0, false;
    while n < |page|
      invariant n <= |page| && Progress(key, rows, lo, k + n, last, to, out')
        && Anchored(key, rows, from, lo, k + n, last)
    {
      assert page[n] == rows[k + n];
      if to.Some? && key(page[n]) > to.value {
        stopped := true;
        return;
      }
      EmitOne(key, rows, lo, k + n, last, to, out');
      out', last, n := out' + [page[n]], key(page[n]), n + 1;
    }
  }

  /** Past the last row, or at one past the end of the range, exactly the requested rows are out. */
  lemma {:induction false} Finished<T>(key: T -> nat, rows: seq<T>, from: int, lo: nat, k: nat, after: int,
      to: Option<int>, out: seq<T>)
    requires Sorted(key, rows) && At(key, rows, from - 1, lo) && Progress(key, rows, lo, k, after, to, out)
    requires k < |rows| ==> to.Some? && key(rows[k]) > to.value
    ensures out == Requested(key, rows, from, to)
  {
    forall i | 0 <= i < |rows| ensures InRange(key(rows[i]), from, to) <==> lo <= i < k {
      if lo < i { assert key(rows[lo]) < key(rows[i]); }
      if i < lo - 1 { assert key(rows[i]) < key(rows[lo - 1]); }
      if k < i { assert key(rows[k]) < key(rows[i]); }
      if i < k - 1 { assert key(rows[i]) < key(rows[k - 1]); }
    }
    FilterSlice((r: T) => InRange(key(r), from, to), rows, lo, k);
  }

  /** The log at each fetch: it only grows, in seq order, and stays finite. */
  ghost predicate Grows<T>(key: T -> nat, logs: nat -> seq<T>, bound: nat) {
    forall i: nat :: GrownAt(key, logs, bound, i)
  }

  ghost predicate GrownAt<T>(key: T -> nat, logs: nat -> seq<T>, bound: nat, i: nat) {
    Sorted(key, logs(i)) && |logs(i)| <= bound && logs(i) <= logs(i + 1)
  }

  /** The cursor is where the replay began, or on the last row emitted. */
  ghost predicate Anchored<T>(key: T -> nat, rows: seq<T>, from: int, lo: nat, k: nat, after: int) {
    k <= |rows| && if k == lo then after == from - 1 else k > lo && key(rows[k - 1]) == after
  }

  lemma {:induction false} SamePosition<T>(key: T -> nat, rows: seq<T>, n: int, k: nat, l: nat)
    requires Sorted(key, rows) && At(key, rows, n, k) && At(key, rows, n, l)
    ensures k == l
  {
    AtSplits(key, rows, n, k);
    AtSplits(key, rows, n, l);
  }

  /** Rows committed between two fetches fall after the cursor, so what was emitted stays a contiguous stretch. */
  lemma {:induction false} Regrown<T>(key: T -> nat, rows: seq<T>, more: seq<T>, from: int, to: Option<int>, after: int,
      out: seq<T>,
                                      lo: nat, k: nat, lo': nat, k': nat)
    requires Sorted(key, more) && rows <= more
    requires At(key, rows, from - 1, lo) && Progress(key, rows, lo, k, after, to, out)
      && Anchored(key, rows, from, lo, k, after)
    requires At(key, more, from - 1, lo') && At(key, more, after, k')
    ensures Progress(key, more, lo', k', after, to, out) && Anchored(key, more, from, lo', k', after) && k <= k'
  {
    assert forall i :: 0 <= i < |rows| ==> more[i] == rows[i];
    if k == lo {
      SamePosition(key, more, after, lo', k');
      AtSplits(key, more, after, k');
    } else {
      if k < |more| { assert key(more[k - 1]) < key(more[k]); }
      SamePosition(key, more, after, k, k');
      SamePosition(key, more, from - 1, lo, lo');
    }
  }

  /** Where the loop stands: what it emitted is the stretch of the log it has read, up to its cursor. */
  ghost predicate Standing<T>(key: T -> nat, rows: seq<T>, from: int, to: Option<int>, after: int, out: seq<T>, lo: nat,
      k: nat) {
    && Sorted(key, rows) && At(key, rows, from - 1, lo)
    && Progress(key, rows, lo, k, after, to, out) && Anchored(key, rows, from, lo, k, after)
  }

  /** One fetch, of the log as it is by then, and the emission of its page. */
  method DrainPage<T>(key: T -> nat, now: seq<T>, from: int, to: Option<int>, batchSize: nat, after: int, out: seq<T>,
                      ghost rows: seq<T>, ghost lo: nat, ghost k: nat)
    returns (out': seq<T>, after': int, more: bool, ghost lo': nat, ghost k': nat)
    requires Standing(key, rows, from, to, after, out, lo, k) && Sorted(key, now) && rows <= now && batchSize > 0
    ensures Standing(key, now, from, to, after', out', lo', k') && k <= k' && (more ==> k < k')
    ensures !more && k' < |now| ==> to.Some? && key(now[k']) > to.value
  {
    lo' := Position(key, now, from - 1);
    k' := Position(key, now, after);
    Regrown(key, rows, now, from, to, after, out, lo, k, lo', k');
    var page := FetchPage(key, now, after, batchSize, k');
    var n, stopped;
    out', after', n, stopped := EmitPage(key, page, to, after, out, now, from, lo', k');
    k' := k' + n;
    more := !stopped && |page| == batchSize;
  }

  /** The log as the last fetch saw it. */
  function Seen<T>(logs: nat -> seq<T>, fetches: nat): seq<T> { if fetches == 0 then logs(0) else logs(fetches - 1) }

  lemma {:induction false} SeenGrows<T>(key: T -> nat, logs: nat -> seq<T>, bound: nat, fetches: nat)
    requires Grows(key, logs, bound)
    ensures var now := Seen(logs, fetches + 1); Sorted(key, now) && |now| <= bound && Seen(logs, fetches) <= now
  {
    assert GrownAt(key, logs, bound, fetches);
    if fetches > 0 { assert GrownAt(key, logs, bound, fetches - 1); }
  }

  /** Nothing emitted yet. */
  lemma {:induction false} StandingAtStart<T>(key: T -> nat, rows: seq<T>, from: int, to: Option<int>) returns (lo: nat)
    requires Sorted(key, rows)
    ensures Standing(key, rows, from, to, from - 1, [], lo, lo)
  {
    lo := Position(key, rows, from - 1);
  }

  /**
   * The paging loop, with transactions committing between its fetches: fetch and emit until a page
   * comes back short or the range ends.  It emits exactly the rows of the range that were stored
   * at its last fetch, in order, each once.
   */
  method Drain<T>(key: T -> nat, logs: nat -> seq<T>, from: int, to: Option<int>, batchSize: nat, ghost bound: nat)
    returns (out: seq<T>, fetches: nat)
    requires Grows(key, logs, bound) && batchSize > 0
    ensures fetches > 0 && out == Requested(key, logs(fetches - 1), from, to)
  {
    SeenGrows(key, logs, bound, 0);
    ghost var rows := Seen(logs, 0);
    ghost var lo := StandingAtStart(key, rows, from, to);
    ghost var k := lo;
    var after, more := from - 1, true;
    out, fetches := [], 0;
    while more
      invariant rows == Seen(logs, fetches) && (!more ==> fetches > 0)
      invariant Standing(key, rows, from, to, after, out, lo, k)
      invariant !more && k < |rows| ==> to.Some? && key(rows[k]) > to.value
      invariant |rows| <= bound
      decreases bound - k, more
    {
      SeenGrows(key, logs, bound, fetches);
      fetches := fetches + 1;
      var now := Seen(logs, fetches);
      out, after, more, lo, k := DrainPage(key, now, from, to, batchSize, after, out, rows, lo, k);
      rows := now;
    }
    Finished(key, rows, from, lo, k, after, to, out);
  }

  /**
   * `ReplayService.stream` without its delays: whatever the batch size and whatever commits
   * meanwhile, it emits exactly the rows of the requested range stored at its last fetch.
   */
  method Stream<T>(key: T -> nat, logs: nat -> seq<T>, fromSeq: Option<int>, toSeq: Option<int>, batchSize: nat,
      ghost bound: nat)
    returns (out: seq<T>, fetches: nat)
    requires Grows(key, logs, bound)
    ensures fetches > 0 && out == if batchSize > 0 then Requested(key, logs(fetches - 1), fromSeq.Or(1), toSeq) else []
  {
    if batchSize == 0 { return [], 1; }
    out, fetches := Drain(key, logs, fromSeq.Or(1), toSeq, batchSize, bound);
  }

  /** Once the log reaches the end of a range, later commits add nothing to it. */
  lemma {:induction false} RangeSettled<T>(key: T -> nat, rows: seq<T>, later: seq<T>, from: int, to: int)
    requires Sorted(key, later) && rows <= later && rows != [] && key(rows[|rows| - 1]) >= to
    ensures Requested(key, later, from, Some(to)) == Requested(key, rows, from, Some(to))
  {
    var rest, keep := later[|rows|..], (r: T) => InRange(key(r), from, Some(to));
    assert later == rows + rest;
    FilterAppend(keep, rows, rest);
    forall i | 0 <= i < |rest| ensures !keep(rest[i]) {
      assert key(later[|rows| - 1]) < key(later[|rows| + i]);
    }
    FilterSlice(keep, rest, 0, 0);
  }
}
