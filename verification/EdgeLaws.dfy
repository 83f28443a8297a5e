/** Which edges the graph keeps: what a message draws, what it redraws in place, and what stays. */
module EdgeLaws {
  import opened Prelude
  import opened Events
  import opened Projection
  import opened MessageLaws

  predicate SameKey(a: Edge, b: Edge) { a.from == b.from && a.to == b.to && a.kind == b.kind }

  /** An edge `upsertEdge` accepts. */
  predicate Drawable(d: Edge) { d.from != "" && d.to != "" && d.from != d.to }

  function Fan(from: string, tos: seq<string>, kind: string, ts: Time): seq<Edge> {
    Map((to: string) => Edge(from, to, kind, ts), tos)
  }

  /** The edges a received message asks for, in order. */
  function Drawn(e: Event, declared: seq<string>): seq<Edge> {
    var sender, to := From(e), To(e, declared);
    (match e.data.messageType
     case Some(SessionStart) => [Edge("__start", sender, "session.bound", e.ts)] + Fan(sender, to, "fanout", e.ts)
     case Some(Proposal) => [Edge(sender, "__proposal", "proposes", e.ts)] + Fan("__proposal", to, "review", e.ts)
     case Some(VoteMessage) => [Edge(sender, "__decision", "vote", e.ts)]
     case Some(Evaluation) => [Edge(sender, "__decision", "evaluation", e.ts)]
     case Some(Objection) => [Edge(sender, "__decision", "objection", e.ts)]
     case Some(Commitment) => [Edge("__decision", "__outcome", "commits", e.ts)]
     case _ => [])
    + Fan(sender, to, Called(e), e.ts)
  }

  function Redraw(es: seq<Edge>, ds: seq<Edge>): seq<Edge>
    decreases |ds|
  {
    if ds == [] then es
    else
      var d := ds[|ds| - 1];
      UpsertEdge(Redraw(es, ds[..|ds| - 1]), d.from, d.to, d.kind, d.ts)
  }

  // ---- The branch draws exactly that list -----------------------------------------------------

  lemma {:induction false} RedrawAppend(es: seq<Edge>, a: seq<Edge>, b: seq<Edge>)
    ensures Redraw(es, a + b) == Redraw(Redraw(es, a), b)
    decreases |b|
  {
    if b == [] {
      assert a + b == a;
    } else {
      assert (a + b)[..|a| + |b| - 1] == a + b[..|b| - 1];
      RedrawAppend(es, a, b[..|b| - 1]);
    }
  }

  lemma {:induction false} RedrawOne(es: seq<Edge>, d: Edge)
    ensures Redraw(es, [d]) == UpsertEdge(es, d.from, d.to, d.kind, d.ts)
  {
    assert [d][..0] == [] && Redraw(es, []) == es;
  }

  lemma {:induction false} FanRedraws(es: seq<Edge>, from: string, tos: seq<string>, kind: string, ts: Time)
    ensures UpsertFan(es, from, tos, kind, ts) == Redraw(es, Fan(from, tos, kind, ts))
    decreases |tos|
  {
    if tos != [] {
      var d, rest := Edge(from, tos[0], kind, ts), Fan(from, tos[1..], kind, ts);
      assert Fan(from, tos, kind, ts) == [d] + rest;
      RedrawAppend(es, [d], rest);
      RedrawOne(es, d);
      FanRedraws(UpsertEdge(es, from, tos[0], kind, ts), from, tos[1..], kind, ts);
    }
  }

  lemma {:induction false} LifecycleRedraws(es: seq<Edge>, d: Edge, from: string, tos: seq<string>, kind: string)
    ensures Redraw(es, [d] + Fan(from, tos, kind, d.ts)) == UpsertFan(UpsertEdge(es, d.from, d.to, d.kind, d.ts), from, tos, kind, d.ts)
  {
    RedrawAppend(es, [d], Fan(from, tos, kind, d.ts));
    RedrawOne(es, d);
    FanRedraws(UpsertEdge(es, d.from, d.to, d.kind, d.ts), from, tos, kind, d.ts);
  }

  lemma {:induction false} BallotTexts()
    ensures Lower(VoteMessage.Text()) == "vote" && Lower(Evaluation.Text()) == "evaluation" && Lower(Objection.Text()) == "objection"
  {
    MapIndex(LowerChar, "Vote");
    MapIndex(LowerChar, "Evaluation");
    MapIndex(LowerChar, "Objection");
  }

  /** A sent message adds an edge to each recipient it names, in order, and the list is trimmed to the last 200. */
  lemma {:induction false} SentAdds(es: seq<Edge>, declared: seq<string>, e: Event)
    requires e.kind == MessageSent
    ensures StepEdges(es, declared, e) ==
      Last(if From(e) == "" then es
           else es + Fan(From(e), Filter((to: string) => to != "", e.data.to), "message.sent", e.ts), 200)
  {
    SameFilter((to: string) => to != "", to => to != "", e.data.to);
    MapIndex((to: string) => Edge(From(e), to, "message.sent", e.ts), Filter((to: string) => to != "", e.data.to));
  }

  /** A received message redraws exactly its list, and the list is trimmed to the last 300. */
  lemma {:induction false} ReceivedRedraws(es: seq<Edge>, declared: seq<string>, e: Event)
    requires e.kind.MessageReceived?
    ensures StepEdges(es, declared, e) == Last(Redraw(es, Drawn(e, declared)), 300)
  {
    var m, sender, to := MessageTypeOf(e), Sender(e), Recipients(e, declared);
    ToIs(e, declared);
    BallotTexts();
    var direct := Fan(sender, to, MessageText(e, "message.received"), e.ts);
    var first := LifecycleEdges(es, m, sender, to, e.ts);
    FanRedraws(first, sender, to, MessageText(e, "message.received"), e.ts);
    if m.SessionStart? {
      LifecycleRedraws(es, Edge("__start", sender, "session.bound", e.ts), sender, to, "fanout");
      RedrawAppend(es, [Edge("__start", sender, "session.bound", e.ts)] + Fan(sender, to, "fanout", e.ts), direct);
    } else if m.Proposal? {
      LifecycleRedraws(es, Edge(sender, "__proposal", "proposes", e.ts), "__proposal", to, "review");
      RedrawAppend(es, [Edge(sender, "__proposal", "proposes", e.ts)] + Fan("__proposal", to, "review", e.ts), direct);
    } else if IsBallot(m) {
      RedrawOne(es, Edge(sender, "__decision", Lower(m.Text()), e.ts));
      RedrawAppend(es, [Edge(sender, "__decision", Lower(m.Text()), e.ts)], direct);
    } else if m.Commitment? {
      RedrawOne(es, Edge("__decision", "__outcome", "commits", e.ts));
      RedrawAppend(es, [Edge("__decision", "__outcome", "commits", e.ts)], direct);
    } else {
      assert [] + direct == direct;
    }
  }

  // ---- What redrawing does --------------------------------------------------------------------

  ghost predicate HasKey(es: seq<Edge>, d: Edge) { exists i :: 0 <= i < |es| && SameKey(es[i], d) }

  /** The edges that were there keep their place and ends; what follows them is new. */
  ghost predicate Kept(es: seq<Edge>, out: seq<Edge>) {
    |es| <= |out| && forall i :: 0 <= i < |es| ==> SameKey(out[i], es[i])
  }

  /** Every edge is an old one with its old time, or one of the drawn ones. */
  ghost predicate FromOldOrDrawn(es: seq<Edge>, ds: seq<Edge>, out: seq<Edge>) {
    forall i :: 0 <= i < |out| ==> (i < |es| && out[i] == es[i]) || (out[i] in ds && Drawable(out[i]))
  }

  /** Each new edge is unlike every edge before it. */
  ghost predicate NewOnesDistinct(es: seq<Edge>, out: seq<Edge>) {
    forall i, j :: |es| <= i < |out| && 0 <= j < i ==> !SameKey(out[i], out[j])
  }

  lemma {:induction false} FindEdgeIs(es: seq<Edge>, d: Edge)
    ensures var i := FindEdge(es, d.from, d.to, d.kind);
      && (i < |es| ==> SameKey(es[i], d)) && (i == |es| <==> !HasKey(es, d))
  {
    if es != [] {
      var i := FindEdge(es[1..], d.from, d.to, d.kind);
      FindEdgeIs(es[1..], d);
      if SameKey(es[0], d) {
        assert HasKey(es, d);
      } else if HasKey(es, d) {
        var k :| 0 <= k < |es| && SameKey(es[k], d);
        assert SameKey(es[1..][k - 1], d);
      } else {
        assert forall k :: 0 <= k < |es[1..]| ==> es[1..][k] == es[k + 1];
      }
    }
  }

  lemma {:induction false} UpsertSpec(es: seq<Edge>, ds: seq<Edge>, mid: seq<Edge>, d: Edge)
    requires Kept(es, mid) && FromOldOrDrawn(es, ds, mid) && NewOnesDistinct(es, mid)
    ensures var out := UpsertEdge(mid, d.from, d.to, d.kind, d.ts);
      && Kept(es, out) && FromOldOrDrawn(es, ds + [d], out) && NewOnesDistinct(es, out)
      && (Drawable(d) ==> HasKey(out, d)) && (forall x :: HasKey(mid, x) ==> HasKey(out, x))
  {
    var out := UpsertEdge(mid, d.from, d.to, d.kind, d.ts);
    FindEdgeIs(mid, d);
    var j := FindEdge(mid, d.from, d.to, d.kind);
    assert d in ds + [d];
    assert forall i :: 0 <= i < |mid| ==> SameKey(out[i], mid[i]);
    forall x | HasKey(mid, x) ensures HasKey(out, x) {
      var k :| 0 <= k < |mid| && SameKey(mid[k], x);
      assert SameKey(out[k], x);
    }
    if Drawable(d) {
      assert SameKey(out[j], d);
    }
  }

  /**
   * What redrawing a list does, whatever was there: edges already there keep their place, taking the
   * drawn time if drawn; the others drawn are appended, once each; every drawable one is there.
   */
  lemma {:induction false} RedrawSpec(es: seq<Edge>, ds: seq<Edge>)
    ensures var out := Redraw(es, ds);
      && Kept(es, out) && FromOldOrDrawn(es, ds, out) && NewOnesDistinct(es, out)
      && (forall x :: HasKey(es, x) ==> HasKey(out, x))
      && (forall d :: d in ds && Drawable(d) ==> HasKey(out, d))
    decreases |ds|
  {
    if ds != [] {
      var n := |ds| - 1;
      RedrawSpec(es, ds[..n]);
      assert ds == ds[..n] + [ds[n]];
      UpsertSpec(es, ds[..n], Redraw(es, ds[..n]), ds[n]);
    }
  }

  // ---- Whole logs -----------------------------------------------------------------------------

  /** The event draws this edge, at its own time. */
  ghost predicate Draws(e: Event, x: Edge) {
    || (e.kind.MessageSent? && x in Fan(Sender(e), e.data.to, "message.sent", e.ts))
    || (e.kind.MessageReceived? && exists declared: seq<string> :: x in Drawn(e, declared))
  }

  lemma {:induction false} PushedAreDrawn(es: seq<Edge>, e: Event, x: Edge)
    requires e.kind.MessageSent? && x in PushFan(es, Sender(e), e.data.to, "message.sent", e.ts)
    ensures x in es || Draws(e, x)
  {
    var named := Filter(to => to != "", e.data.to);
    FilterMembers(to => to != "", e.data.to);
    var pushed := Map(to => Edge(Sender(e), to, "message.sent", e.ts), named);
    if x in pushed {
      var i :| 0 <= i < |pushed| && pushed[i] == x;
      assert named[i] in named && named[i] in e.data.to;
      var k :| 0 <= k < |e.data.to| && e.data.to[k] == named[i];
      assert Fan(Sender(e), e.data.to, "message.sent", e.ts)[k] == x;
    }
  }

  lemma {:induction false} LastMember<T>(s: seq<T>, n: nat, x: T)
    requires x in Last(s, n)
    ensures x in s
  {}

  lemma {:induction false} StepDraws(es: seq<Edge>, declared: seq<string>, e: Event, x: Edge)
    requires x in StepEdges(es, declared, e)
    ensures x in es || Draws(e, x)
  {
    if e.kind.MessageSent? {
      LastMember(PushFan(es, Sender(e), e.data.to, "message.sent", e.ts), 200, x);
      PushedAreDrawn(es, e, x);
    } else if e.kind.MessageReceived? {
      ReceivedRedraws(es, declared, e);
      LastMember(Redraw(es, Drawn(e, declared)), 300, x);
      RedrawSpec(es, Drawn(e, declared));
    }
  }

  /** Every edge of the graph was drawn by an event of the log, with that event's time. */
  lemma {:induction false} EdgesFromTheLog(runId: string, es: seq<Event>, x: Edge)
    requires x in Apply(Empty(runId), es).cols.edges
    ensures exists i :: 0 <= i < |es| && Draws(es[i], x)
    decreases |es|
  {
    var n := |es| - 1;
    if es != [] {
      var mid := Apply(Empty(runId), es[..n]).cols;
      EdgeStep(runId, Apply(Empty(runId), es[..n]), es[n]);
      StepDraws(mid.edges, Declared(mid.actors, mid.run.status, es[n]), es[n], x);
      if x in mid.edges {
        EdgesFromTheLog(runId, es[..n], x);
        var i :| 0 <= i < n && Draws(es[..n][i], x);
        assert Draws(es[i], x);
      } else {
        assert Draws(es[n], x);
      }
    }
  }

  lemma {:induction false} EdgeStep(base: string, s: State, e: Event)
    ensures Step(base, s, e).cols.edges == StepEdges(s.cols.edges, Declared(s.cols.actors, s.cols.run.status, e), e)
  {}
}
