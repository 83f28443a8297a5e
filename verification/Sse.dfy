/**
 * `RunsController.streamRun`: a subscriber that first pages through the stored log and then goes
 * live, with everything published meanwhile held in a buffer.  Only sequence numbers matter.
 */
module Sse {
  import opened Prelude

  datatype Message = EventMessage(seqNo: nat) | SnapshotMessage

  /** The closure state of one subscriber; `emitted` lists the canonical events it was sent. */
  datatype Subscriber = Subscriber(afterSeq: nat, highSeq: nat, emitted: seq<nat>, buffer: seq<Message>, backfillDone: bool)

  function Connect(afterSeq: nat): Subscriber { Subscriber(afterSeq, afterSeq, [], [], false) }

  /** Send an event unless one at least as new was sent already. */
  function Offer(s: Subscriber, n: nat): Subscriber {
    if n <= s.highSeq then s else s.(highSeq := n, emitted := s.emitted + [n])
  }

  function OfferAll(s: Subscriber, ns: seq<nat>): Subscriber
    decreases |ns|
  {
    if ns == [] then s else Offer(OfferAll(s, ns[..|ns| - 1]), ns[|ns| - 1])
  }

  function SeqsOf(ms: seq<Message>): seq<nat>
    decreases |ms|
  {
    if ms == [] then []
    else SeqsOf(ms[..|ms| - 1]) + if ms[|ms| - 1].EventMessage? then [ms[|ms| - 1].seqNo] else []
  }

  function Receive(s: Subscriber, m: Message): Subscriber {
    if !s.backfillDone then s.(buffer := s.buffer + [m])
    else if m.EventMessage? then Offer(s, m.seqNo)
    else s
  }

  function GoLive(s: Subscriber): Subscriber {
    OfferAll(s, SeqsOf(s.buffer)).(backfillDone := true, buffer := [])
  }

  lemma {:induction false} FlushOne(s: Subscriber, held: seq<Message>, i: nat)
    requires i < |held|
    ensures OfferAll(s, SeqsOf(held[..i + 1]))
         == if held[i].EventMessage? then Offer(OfferAll(s, SeqsOf(held[..i])), held[i].seqNo) else OfferAll(s, SeqsOf(held[..i]))
  {
    var now := SeqsOf(held[..i]);
    assert held[..i + 1][..i] == held[..i];
    if held[i].EventMessage? {
      var next := now + [held[i].seqNo];
      assert SeqsOf(held[..i + 1]) == next && next[..|next| - 1] == now;
    } else {
      assert SeqsOf(held[..i + 1]) == now + [] == now;
    }
  }

  /** The subscriber as the source keeps it, with its three handlers. */
  class Connection {
    var s: Subscriber

    constructor (afterSeq: nat)
      ensures s == Connect(afterSeq)
    {
      s := Connect(afterSeq);
    }

    method OnMessage(m: Message)
      modifies this
      ensures s == Receive(old(s), m)
    {
      if !s.backfillDone {
        s := s.(buffer := s.buffer + [m]);
        return;
      }
      if m.SnapshotMessage? || m.seqNo <= s.highSeq { return; }
      s := s.(highSeq := m.seqNo, emitted := s.emitted + [m.seqNo]);
    }

    method OnPage(rows: seq<nat>)
      modifies this
      ensures s == OfferAll(old(s), rows)
    {
      var i := 0;
      while i < |rows|
        invariant i <= |rows| && s == OfferAll(old(s), rows[..i])
      {
        assert rows[..i + 1][..i] == rows[..i];
        if rows[i] > s.highSeq {
          s := s.(highSeq := rows[i], emitted := s.emitted + [rows[i]]);
        }
        i := i + 1;
      }
      assert rows[..i] == rows;
    }

    method Flush()
      modifies this
      ensures s == GoLive(old(s))
    {
      var held := s.buffer;
      var i := 0;
      while i < |held|
        invariant i <= |held| && s == OfferAll(old(s), SeqsOf(held[..i]))
      {
        FlushOne(old(s), held, i);
        if held[i].EventMessage? && held[i].seqNo > s.highSeq {
          s := s.(highSeq := held[i].seqNo, emitted := s.emitted + [held[i].seqNo]);
        }
        i := i + 1;
      }
      assert held[..i] == held;
      s := s.(backfillDone := true, buffer := []);
    }
  }

  // ---- Always: strictly increasing, above afterSeq --------------------------------------------

  ghost predicate Rising(s: Subscriber) {
    && (forall i, j :: 0 <= i < j < |s.emitted| ==> s.emitted[i] < s.emitted[j])
    && (forall i :: 0 <= i < |s.emitted| ==> s.afterSeq < s.emitted[i] <= s.highSeq)
    && s.afterSeq <= s.highSeq
  }

  lemma {:induction false} OfferAllRises(s: Subscriber, ns: seq<nat>)
    requires Rising(s)
    ensures Rising(OfferAll(s, ns))
    ensures OfferAll(s, ns).afterSeq == s.afterSeq
    decreases |ns|
  {
    if ns != [] {
      OfferAllRises(s, ns[..|ns| - 1]);
    }
  }

  datatype Input = Page(rows: seq<nat>) | Told(m: Message) | Flush

  function Feed(s: Subscriber, input: Input): Subscriber {
    match input
    case Page(rows) => OfferAll(s, rows)
    case Told(m) => Receive(s, m)
    case Flush => GoLive(s)
  }

  /** Whatever pages and messages arrive, in whatever order: strictly increasing and above `afterSeq`. */
  lemma {:induction false} EmissionRises(s: Subscriber, inputs: seq<Input>)
    requires Rising(s)
    ensures Rising(Foldl(Feed, s, inputs)) && Foldl(Feed, s, inputs).afterSeq == s.afterSeq
    decreases |inputs|
  {
    if inputs != [] {
      var before := Foldl(Feed, s, inputs[..|inputs| - 1]);
      EmissionRises(s, inputs[..|inputs| - 1]);
      match inputs[|inputs| - 1]
      case Page(rows) => OfferAllRises(before, rows);
      case Told(m) =>
      case Flush => OfferAllRises(before, SeqsOf(before.buffer));
    }
  }

  // ---- What the high-water mark drops ---------------------------------------------------------

  ghost predicate Ascending(ns: seq<nat>) { forall i, j :: 0 <= i < j < |ns| ==> ns[i] < ns[j] }

  ghost predicate Distinct(ns: seq<nat>) { forall i, j :: 0 <= i < j < |ns| ==> ns[i] != ns[j] }

  /** The messages newer than h, in the order they arrive. */
  function Fresh(h: nat, ns: seq<nat>): seq<nat>
    decreases |ns|
  {
    if ns == [] then [] else Fresh(h, ns[..|ns| - 1]) + if ns[|ns| - 1] > h then [ns[|ns| - 1]] else []
  }

  lemma {:induction false} FreshMembers(h: nat, ns: seq<nat>)
    ensures forall n :: n in Fresh(h, ns) <==> n in ns && n > h
    decreases |ns|
  {
    if ns != [] {
      FreshMembers(h, ns[..|ns| - 1]);
      assert ns == ns[..|ns| - 1] + [ns[|ns| - 1]];
    }
  }

  /** Where the mark stands after a sequence of offers: at the start, or at one of the messages. */
  lemma {:induction false} MarkIsOffered(s: Subscriber, ns: seq<nat>)
    ensures var r := OfferAll(s, ns); r.highSeq >= s.highSeq && (forall n :: n in ns ==> n <= r.highSeq)
    ensures OfferAll(s, ns).highSeq == s.highSeq || OfferAll(s, ns).highSeq in Fresh(s.highSeq, ns)
    decreases |ns|
  {
    if ns != [] {
      MarkIsOffered(s, ns[..|ns| - 1]);
      assert ns == ns[..|ns| - 1] + [ns[|ns| - 1]];
    }
  }

  /**
   * Whoever the subscriber and whatever the messages, exactly the new ones are sent, each once and
   * in arrival order, if and only if they arrive in strictly ascending order.
   */
  lemma {:induction false} LosesNothingIff(s: Subscriber, ns: seq<nat>)
    ensures OfferAll(s, ns).emitted == s.emitted + Fresh(s.highSeq, ns) <==> Ascending(Fresh(s.highSeq, ns))
    ensures |OfferAll(s, ns).emitted| <= |s.emitted| + |Fresh(s.highSeq, ns)|
    decreases |ns|
  {
    if ns == [] {
      assert s.emitted + [] == s.emitted;
    } else {
      var ms, n := ns[..|ns| - 1], ns[|ns| - 1];
      var before, mid := Fresh(s.highSeq, ms), OfferAll(s, ms);
      LosesNothingIff(s, ms);
      MarkIsOffered(s, ms);
      FreshMembers(s.highSeq, ms);
      if n <= s.highSeq {
        assert before + [] == before;
      } else {
        var all := before + [n];
        assert Fresh(s.highSeq, ns) == all;
        AscendingAppend(before, n);
        if mid.highSeq < n {
          assert s.emitted + all == (s.emitted + before) + [n];
          AppendCancels(mid.emitted, s.emitted + before, n);
          assert forall x :: x in before ==> x < n;
        } else {
          assert mid.highSeq in before;
          assert |s.emitted + all| == |s.emitted| + |before| + 1;
        }
      }
    }
  }

  lemma {:induction false} AscendingAppend(ns: seq<nat>, n: nat)
    ensures Ascending(ns + [n]) <==> Ascending(ns) && forall x :: x in ns ==> x < n
  {
    var all := ns + [n];
    if Ascending(all) {
      assert forall i :: 0 <= i < |ns| ==> all[i] == ns[i] && all[i] < all[|ns|];
    } else if Ascending(ns) {
      var i, j :| 0 <= i < j < |all| && all[i] >= all[j];
      assert all[i] == ns[i] && ns[i] in ns;
    }
  }

  lemma {:induction false} AppendCancels<T>(a: seq<T>, b: seq<T>, x: T)
    ensures a + [x] == b + [x] <==> a == b
  {
    if a + [x] == b + [x] {
      assert a == (a + [x])[..|a|];
      assert b == (b + [x])[..|b|];
      assert |a + [x]| == |b + [x]|;
    }
  }

  /** If no new message is missing afterwards, and none came twice, they came in ascending order. */
  lemma {:induction false} AllSentAscending(s: Subscriber, ns: seq<nat>)
    requires Distinct(ns) && forall n :: n in s.emitted ==> n <= s.highSeq
    requires forall n :: n in Fresh(s.highSeq, ns) ==> n in OfferAll(s, ns).emitted
    ensures Ascending(Fresh(s.highSeq, ns))
    decreases |ns|
  {
    if ns != [] {
      var ms, n := ns[..|ns| - 1], ns[|ns| - 1];
      var before, mid := Fresh(s.highSeq, ms), OfferAll(s, ms);
      FreshMembers(s.highSeq, ms);
      FreshMembers(s.highSeq, ns);
      assert ns == ms + [n];
      forall x | x in before ensures x in mid.emitted {
        var i :| 0 <= i < |ms| && ms[i] == x;
        assert ns[i] == x != ns[|ms|];
        assert x in Fresh(s.highSeq, ns);
      }
      AllSentAscending(s, ms);
      if n > s.highSeq {
        LosesNothingIff(s, ms);
        MarkIsOffered(s, ms);
        assert n in Fresh(s.highSeq, ns);
        assert n !in ms;
        AscendingAppend(before, n);
      }
    }
  }
}
