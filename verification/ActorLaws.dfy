/** Participants and the graph nodes that mirror them, over every event sequence. */
module ActorLaws {
  import opened Prelude
  import opened Events
  import opened Projection

  ghost predicate HasNode(ns: seq<Node>, id: string) { exists j :: 0 <= j < |ns| && ns[j].id == id }
  ghost predicate HasParticipant(ps: seq<Participant>, id: string) {
    exists i :: 0 <= i < |ps| && ps[i].participantId == id
  }

  ghost predicate DistinctParticipants(ps: seq<Participant>) {
    forall i, k :: 0 <= i < k < |ps| ==> ps[i].participantId != ps[k].participantId
  }

  ghost predicate DistinctNodes(ns: seq<Node>) { forall i, k :: 0 <= i < k < |ns| ==> ns[i].id != ns[k].id }

  ghost predicate AllHaveNodes(own: set<string>, ps: seq<Participant>, ns: seq<Node>) {
    forall i :: 0 <= i < |ps| ==> HasNode(ns, ps[i].participantId) && ps[i].participantId !in own
  }

  ghost predicate NoStrayNodes(own: set<string>, ps: seq<Participant>, ns: seq<Node>) {
    forall j :: 0 <= j < |ns| ==> ns[j].id in own || HasParticipant(ps, ns[j].id)
  }

  ghost predicate SameStatuses(ps: seq<Participant>, ns: seq<Node>) {
    forall i, j :: 0 <= i < |ps| && 0 <= j < |ns| && ps[i].participantId == ns[j].id ==> ps[i].status == ns[j].status
  }

  /** Participants have distinct ids, and each has exactly one graph node, of the same status. */
  ghost predicate Mirror(a: Actors) {
    && DistinctParticipants(a.participants) && DistinctNodes(a.nodes)
    && (forall i :: 0 <= i < |a.participants| ==> HasNode(a.nodes, a.participants[i].participantId))
    && SameStatuses(a.participants, a.nodes)
  }

  /** Mirrored, and the ids in `own`, which lifecycle nodes go by, are kept apart from those of participants. */
  ghost predicate Apart(own: set<string>, a: Actors) {
    && DistinctParticipants(a.participants) && DistinctNodes(a.nodes)
    && AllHaveNodes(own, a.participants, a.nodes) && NoStrayNodes(own, a.participants, a.nodes)
    && SameStatuses(a.participants, a.nodes)
  }

  predicate IsMessage(e: Event) { e.kind.MessageSent? || e.kind.MessageReceived? }

  /** Whom a SessionStart without explicit recipients brings in. */
  function Roster(e: Event): seq<string> {
    var p := e.data.decodedPayload.OrElse(e.data.payload);
    if e.kind.MessageReceived? && MessageTypeOf(e).SessionStart? && e.data.to == [] && p.Some? then p.value.participants else []
  }

  /** The lifecycle nodes a received message brings in. */
  function LifecycleIds(m: MessageType): set<string> {
    {"__start"} +
    if m.Proposal? then {"__proposal"} else if IsBallot(m) then {"__decision"}
    else if m.Commitment? then {"__decision", "__outcome"} else {}
  }

  /** The event turns no id in `own` into a participant, and brings in lifecycle nodes of `own` alone. */
  ghost predicate Respects(own: set<string>, e: Event) {
    && (e.kind.MessageReceived? ==> LifecycleIds(MessageTypeOf(e)) <= own)
    && (e.kind.ParticipantSeen? ==> e.data.participantId.OrElse(e.SubjectId()).Or("") !in own)
    && (IsMessage(e) ==> Sender(e) !in own && forall x :: x in e.data.to ==> x !in own)
    && (forall x :: x in Roster(e) ==> x !in own)
  }

  /** Rank of the node with this id, below every rank when there is none. */
  function NodeRank(ns: seq<Node>, id: string): int {
    var j := FindNode(ns, id);
    if j < |ns| then ns[j].status.Rank() else -2
  }

  lemma FindNodeIs(ns: seq<Node>, id: string, j: nat)
    requires j <= |ns| && (j < |ns| ==> ns[j].id == id)
    requires forall k :: 0 <= k < j ==> ns[k].id != id
    ensures FindNode(ns, id) == j
  {}

  /** Lifecycle nodes keep their rank across a change that leaves other ids' nodes in place. */
  ghost predicate RanksKept(own: set<string>, ns: seq<Node>, ns': seq<Node>) {
    forall id :: id in own ==> NodeRank(ns, id) <= NodeRank(ns', id)
  }

  lemma {:induction false} SameIdsKeepRank(own: set<string>, ns: seq<Node>, ns': seq<Node>)
    requires |ns| <= |ns'|
    requires forall j :: 0 <= j < |ns| ==> ns'[j].id == ns[j].id && (ns[j].id in own ==> ns[j].status.Rank() <= ns'[j].status.Rank())
    ensures RanksKept(own, ns, ns')
  {
    forall id | id in own ensures NodeRank(ns, id) <= NodeRank(ns', id) {
      var j := FindNode(ns, id);
      if j < |ns| {
        FindNodeIs(ns', id, j);
      } else if FindNode(ns', id) < |ns'| {
        assert ns'[FindNode(ns', id)].status.Rank() >= -1;
      }
    }
  }

  lemma {:induction false} AddKeeps(own: set<string>, a: Actors, p: Participant, n: Node)
    requires Apart(own, a) && p.participantId == n.id && n.id !in own && p.status == n.status
    requires !HasParticipant(a.participants, n.id)
    ensures Apart(own, Actors(a.participants + [p], a.nodes + [n]))
  {
    var ps, ns, qs, ms := a.participants, a.nodes, a.participants + [p], a.nodes + [n];
    assert forall j :: 0 <= j < |ns| ==> ns[j].id != n.id;
    forall i | 0 <= i < |qs| ensures HasNode(ms, qs[i].participantId) {
      if i < |ps| {
        var j :| 0 <= j < |ns| && ns[j].id == ps[i].participantId;
        assert ms[j].id == qs[i].participantId;
      } else {
        assert ms[|ns|].id == n.id;
      }
    }
    forall j | 0 <= j < |ms| && ms[j].id !in own ensures HasParticipant(qs, ms[j].id) {
      if j < |ns| {
        var i :| 0 <= i < |ps| && ps[i].participantId == ns[j].id;
        assert qs[i].participantId == ms[j].id;
      } else {
        assert qs[|ps|].participantId == n.id;
      }
    }
  }

  lemma {:induction false} DeclareKeeps(own: set<string>, a: Actors, id: string)
    requires Apart(own, a) && id !in own
    ensures Apart(own, Declare(a, id)) && RanksKept(own, a.nodes, Declare(a, id).nodes)
    ensures FindParticipant(Declare(a, id).participants, id) < |Declare(a, id).participants|
  {
    SameIdsKeepRank(own, a.nodes, Declare(a, id).nodes);
    if FindParticipant(a.participants, id) == |a.participants| {
      AddKeeps(own, a, Participant(id, None, Idle, None, None), Node(id, "participant", Idle));
      assert Declare(a, id).participants[|a.participants|].participantId == id;
    }
  }

  ghost predicate SameParticipantIds(ps: seq<Participant>, qs: seq<Participant>) {
    |ps| == |qs| && forall k :: 0 <= k < |ps| ==> qs[k].participantId == ps[k].participantId
  }

  ghost predicate SameNodeIds(ns: seq<Node>, ms: seq<Node>) {
    |ns| == |ms| && forall k :: 0 <= k < |ns| ==> ms[k].id == ns[k].id
  }

  /** Who is mirrored depends on ids alone. */
  lemma {:induction false} SameIdsMirrored(own: set<string>, ps: seq<Participant>, ns: seq<Node>, qs: seq<Participant>,
      ms: seq<Node>)
    requires SameParticipantIds(ps, qs) && SameNodeIds(ns, ms)
    requires DistinctParticipants(ps) && DistinctNodes(ns) && AllHaveNodes(own, ps, ns) && NoStrayNodes(own, ps, ns)
    ensures DistinctParticipants(qs) && DistinctNodes(ms) && AllHaveNodes(own, qs, ms) && NoStrayNodes(own, qs, ms)
  {
    forall k | 0 <= k < |qs| ensures HasNode(ms, qs[k].participantId) {
      assert HasNode(ns, ps[k].participantId);
      var l :| 0 <= l < |ns| && ns[l].id == ps[k].participantId;
      assert ms[l].id == qs[k].participantId;
    }
    forall l | 0 <= l < |ms| && ms[l].id !in own ensures HasParticipant(qs, ms[l].id) {
      assert HasParticipant(ps, ns[l].id);
      var k :| 0 <= k < |ps| && ps[k].participantId == ns[l].id;
      assert qs[k].participantId == ms[l].id;
    }
  }

  /** Setting one participant's status together with its node's keeps the mirror. */
  lemma {:induction false} SetStatusKeeps(own: set<string>, a: Actors, i: nat, p: Participant, status: ActorStatus)
    requires Apart(own, a) && i < |a.participants| && p.participantId == a.participants[i].participantId
    ensures Apart(own, WithStatus(a, i, p, status)) && RanksKept(own, a.nodes, WithStatus(a, i, p, status).nodes)
  {
    var b := WithStatus(a, i, p, status);
    SameIdsMirrored(own, a.participants, a.nodes, b.participants, b.nodes);
    SetStatusAgrees(own, a, i, p, status);
    assert p.participantId !in own;
    SameIdsKeepRank(own, a.nodes, b.nodes);
  }

  lemma {:induction false} SetStatusAgrees(own: set<string>, a: Actors, i: nat, p: Participant, status: ActorStatus)
    requires Apart(own, a) && i < |a.participants| && p.participantId == a.participants[i].participantId
    ensures var b := WithStatus(a, i, p, status); SameStatuses(b.participants, b.nodes)
  {
    assert HasNode(a.nodes, a.participants[i].participantId);
  }

  /** Changing a participant without its status or id keeps the mirror. */
  lemma {:induction false} SeenKeeps(own: set<string>, a: Actors, i: nat, q: Participant)
    requires Apart(own, a) && i < |a.participants|
    requires q.participantId == a.participants[i].participantId && q.status == a.participants[i].status
    ensures Apart(own, a.(participants := a.participants[i := q]))
  {
    var ps, qs := a.participants, a.participants[i := q];
    forall j | 0 <= j < |a.nodes| && a.nodes[j].id !in own ensures HasParticipant(qs, a.nodes[j].id) {
      var k :| 0 <= k < |ps| && ps[k].participantId == a.nodes[j].id;
      assert qs[k].participantId == a.nodes[j].id;
    }
  }

  lemma {:induction false} TouchKnownKeeps(own: set<string>, a: Actors, run: RunStatus, i: nat, ts: Time,
      status: ActorStatus, summary: Option<string>)
    requires Apart(own, a) && i < |a.participants|
    ensures var b := TouchKnown(a, run, i, ts, status, summary); Apart(own, b) && RanksKept(own, a.nodes, b.nodes)
  {
    var p := Seen(a.participants[i], ts, summary);
    if run.Terminal() && p.status.Terminal() {
      SeenKeeps(own, a, i, p);
      SameIdsKeepRank(own, a.nodes, a.nodes);
    } else {
      SetStatusKeeps(own, a, i, p, status);
    }
  }

  lemma {:induction false} TouchKeeps(own: set<string>, a: Actors, run: RunStatus, id: string, ts: Time,
      status: ActorStatus, summary: Option<string>)
    requires Apart(own, a) && id !in own
    ensures var b := Touch(a, run, id, ts, status, summary); Apart(own, b) && RanksKept(own, a.nodes, b.nodes)
  {
    SameIdsKeepRank(own, a.nodes, a.nodes);
    if id != "" {
      DeclareKeeps(own, a, id);
      var a1 := Declare(a, id);
      TouchKnownKeeps(own, a1, run, FindParticipant(a1.participants, id), ts, status, summary);
    }
  }

  lemma {:induction false} TouchAllKeeps(own: set<string>, a: Actors, run: RunStatus, ids: seq<string>, ts: Time)
    requires Apart(own, a) && forall x :: x in ids ==> x !in own
    ensures var b := TouchAll(a, run, ids, ts); Apart(own, b) && RanksKept(own, a.nodes, b.nodes)
    decreases |ids|
  {
    if ids != [] {
      TouchKeeps(own, a, run, ids[0], ts, Waiting, None);
      TouchAllKeeps(own, Touch(a, run, ids[0], ts, Waiting, None), run, ids[1..], ts);
    }
  }

  lemma {:induction false} UpsertMirrors(own: set<string>, a: Actors, n: Node)
    requires Apart(own, a) && n.id in own
    ensures Apart(own, a.(nodes := UpsertNode(a.nodes, n)))
  {
    var ns, ms := a.nodes, UpsertNode(a.nodes, n);
    forall i | 0 <= i < |a.participants| ensures HasNode(ms, a.participants[i].participantId) {
      assert HasNode(ns, a.participants[i].participantId);
      var j :| 0 <= j < |ns| && ns[j].id == a.participants[i].participantId;
      assert ms[j].id == a.participants[i].participantId;
    }
  }

  /** A lifecycle node is only ever promoted. */
  lemma {:induction false} UpsertKeeps(own: set<string>, a: Actors, n: Node)
    requires Apart(own, a) && n.id in own
    ensures var ms := UpsertNode(a.nodes, n); Apart(own, a.(nodes := ms)) && RanksKept(own, a.nodes, ms)
  {
    UpsertMirrors(own, a, n);
    SameIdsKeepRank(own, a.nodes, UpsertNode(a.nodes, n));
  }

  lemma {:induction false} LifecycleKeeps(own: set<string>, a: Actors, m: MessageType)
    requires Apart(own, a) && LifecycleIds(m) <= own
    ensures var ms := LifecycleNodes(a.nodes, m); Apart(own, a.(nodes := ms)) && RanksKept(own, a.nodes, ms)
  {
    UpsertKeeps(own, a, START_NODE);
    var b := a.(nodes := UpsertNode(a.nodes, START_NODE));
    if m.Proposal? {
      UpsertKeeps(own, b, PROPOSAL_NODE);
    } else if IsBallot(m) {
      UpsertKeeps(own, b, DECISION_ACTIVE);
    } else if m.Commitment? {
      UpsertKeeps(own, b, DECISION_DONE);
      UpsertKeeps(own, b.(nodes := UpsertNode(b.nodes, DECISION_DONE)), OUTCOME_NODE);
    }
  }

  lemma {:induction false} SweepKeeps(own: set<string>, a: Actors, i: nat, blamed: Option<nat>)
    requires Apart(own, a)
    ensures var b := SweepFrom(a, i, blamed); Apart(own, b) && RanksKept(own, a.nodes, b.nodes)
    decreases |a.participants| - i
  {
    if i < |a.participants| {
      var p := a.participants[i];
      if p.status.Terminal() {
        SweepKeeps(own, a, i + 1, blamed);
      } else {
        var s := SweptStatus(p, i, blamed);
        SetStatusKeeps(own, a, i, p, s);
        SweepKeeps(own, WithStatus(a, i, p, s), i + 1, blamed);
      }
    }
  }

  lemma {:induction false} RecipientsFree(own: set<string>, e: Event, a: Actors)
    requires e.kind.MessageReceived? && Respects(own, e) && Apart(own, a)
    ensures forall x :: x in Recipients(e, ParticipantIds(a.participants)) ==> x !in own
  {
    var ids := ParticipantIds(a.participants);
    forall x | x in ids ensures x !in own {
      var i :| 0 <= i < |ids| && ids[i] == x;
      assert a.participants[i].participantId == x;
    }
    var p := e.data.decodedPayload.OrElse(e.data.payload);
    var sender := Sender(e);
    FilterMembers(s => s != sender, ids);
    if p.Some? {
      FilterMembers(s => s != sender, p.value.participants);
    }
  }

  lemma {:induction false} ReachKeeps(own: set<string>, a: Actors, run: RunStatus, e: Event)
    requires e.kind.MessageReceived? && Apart(own, a) && Respects(own, e)
    ensures Apart(own, Reach(a, run, e)) && RanksKept(own, a.nodes, Reach(a, run, e).nodes)
  {
    var summary := Some(MessageText(e, "message.received"));
    TouchKeeps(own, a, run, Sender(e), e.ts, Active, summary);
    var a1 := Touch(a, run, Sender(e), e.ts, Active, summary);
    RecipientsFree(own, e, a1);
    TouchAllKeeps(own, a1, run, Recipients(e, ParticipantIds(a1.participants)), e.ts);
  }

  /** One event keeps the mirror and never demotes a lifecycle node. */
  lemma {:induction false} StepKeeps(own: set<string>, a: Actors, run: RunStatus, e: Event)
    requires Apart(own, a) && Respects(own, e)
    ensures var b := StepActors(a, run, e); Apart(own, b) && RanksKept(own, a.nodes, b.nodes)
  {
    if SweepOutcome(e).Some? {
      SweepKeeps(own, a, 0, Blamed(a.participants, SweepOutcome(e).value));
    } else if e.kind.ParticipantSeen? {
      DeclareKeeps(own, a, e.data.participantId.OrElse(e.SubjectId()).Or(""));
    } else if e.kind.MessageSent? {
      var text := if e.data.messageType.Some? then e.data.messageType.value.Text() else "message.sent";
      TouchKeeps(own, a, run, Sender(e), e.ts, Active, Some(text));
      TouchAllKeeps(own, Touch(a, run, Sender(e), e.ts, Active, Some(text)), run, e.data.to, e.ts);
    } else if e.kind.MessageReceived? {
      ReachKeeps(own, a, run, e);
      LifecycleKeeps(own, Reach(a, run, e), MessageTypeOf(e));
    } else {
      SameIdsKeepRank(own, a.nodes, a.nodes);
    }
  }

  lemma {:induction false} ActorStep(base: string, s: State, e: Event)
    ensures Step(base, s, e).cols.actors == StepActors(s.cols.actors, s.cols.run.status, e)
  {}

  /**
   * Over every event sequence in which no id is both a participant's and a lifecycle node's (`own`
   * being the latter), from every state where it holds: participants stay distinct and mirrored, and
   * lifecycle nodes never drop in rank.
   */
  lemma {:induction false} MirrorAlways(own: set<string>, base: string, s: State, es: seq<Event>)
    requires Apart(own, s.cols.actors) && forall i :: 0 <= i < |es| ==> Respects(own, es[i])
    ensures var b := Fold(base, s, es).cols.actors;
      Mirror(b) && Apart(own, b) && RanksKept(own, s.cols.actors.nodes, b.nodes)
    decreases |es|
  {
    if es != [] {
      var n := |es| - 1;
      MirrorAlways(own, base, s, es[..n]);
      var mid := Fold(base, s, es[..n]);
      ActorStep(base, mid, es[n]);
      StepKeeps(own, mid.cols.actors, mid.cols.run.status, es[n]);
    } else {
      SameIdsKeepRank(own, s.cols.actors.nodes, s.cols.actors.nodes);
    }
  }

  // ---- When an id used for both does harm -----------------------------------------------------

  ghost predicate Outranked(ps: seq<Participant>, n: Node) {
    exists i :: 0 <= i < |ps| && ps[i].participantId == n.id && ps[i].status.Rank() < n.status.Rank()
  }

  /** Bringing in a lifecycle node breaks the mirror exactly when a participant goes by its id and ranks lower. */
  lemma {:induction false} UpsertHarmsIff(a: Actors, n: Node)
    requires Mirror(a)
    ensures Mirror(a.(nodes := UpsertNode(a.nodes, n))) <==> !Outranked(a.participants, n)
  {
    var ps, ns, ms := a.participants, a.nodes, UpsertNode(a.nodes, n);
    var j := FindNode(ns, n.id);
    forall i | 0 <= i < |ps| ensures HasNode(ms, ps[i].participantId) {
      assert HasNode(ns, ps[i].participantId);
      var k :| 0 <= k < |ns| && ns[k].id == ps[i].participantId;
      assert ms[k].id == ps[i].participantId;
    }
    if Outranked(ps, n) {
      var i :| 0 <= i < |ps| && ps[i].participantId == n.id && ps[i].status.Rank() < n.status.Rank();
      assert HasNode(ns, ps[i].participantId);
      assert ps[i].status == ns[j].status && ms[j].id == n.id && ms[j].status == n.status;
    }
  }

  /** Declaring a participant breaks the mirror exactly when it is new and a node goes by its id already. */
  lemma {:induction false} DeclareHarmsIff(a: Actors, id: string)
    requires Mirror(a)
    ensures Mirror(Declare(a, id)) <==> HasParticipant(a.participants, id) || !HasNode(a.nodes, id)
  {
    var b := Declare(a, id);
    if FindParticipant(a.participants, id) == |a.participants| {
      var n := |a.nodes|;
      assert b.nodes[n].id == id;
      forall i | 0 <= i < |b.participants| ensures HasNode(b.nodes, b.participants[i].participantId) {
        if i < |a.participants| {
          assert HasNode(a.nodes, a.participants[i].participantId);
          var k :| 0 <= k < |a.nodes| && a.nodes[k].id == a.participants[i].participantId;
          assert b.nodes[k].id == b.participants[i].participantId;
        }
      }
      if HasNode(a.nodes, id) {
        var k :| 0 <= k < |a.nodes| && a.nodes[k].id == id;
        assert b.nodes[k].id == b.nodes[n].id;
      }
    }
  }

  // ---- The sweep ------------------------------------------------------------------------------

  /** A sweep changes nothing but statuses, and every status by the same rule. */
  lemma {:induction false} SweepSpec(a: Actors, i: nat, blamed: Option<nat>)
    requires i <= |a.participants|
    ensures var ps := SweepFrom(a, i, blamed).participants;
            && |ps| == |a.participants|
            && (forall k :: 0 <= k < i ==> ps[k] == a.participants[k])
            && (forall k :: i <= k < |ps| ==> ps[k] == a.participants[k].(status := SweptStatus(a.participants[k], k, blamed)))
    decreases |a.participants| - i
  {
    if i < |a.participants| {
      var p := a.participants[i];
      if p.status.Terminal() {
        SweepSpec(a, i + 1, blamed);
      } else {
        var s := SweptStatus(p, i, blamed);
        SweepSpec(WithStatus(a, i, p, s), i + 1, blamed);
      }
    }
  }

  lemma {:induction false} SweptIsFixed(a: Actors, i: nat, blamed: Option<nat>)
    requires forall k :: i <= k < |a.participants| ==> a.participants[k].status.Terminal()
    ensures SweepFrom(a, i, blamed) == a
    decreases |a.participants| - i
  {
    if i < |a.participants| {
      SweptIsFixed(a, i + 1, blamed);
    }
  }

  /**
   * A sweep leaves every participant terminal and every already terminal one alone; a second
   * sweep, whatever its outcome, changes nothing; and it fails at most one participant, only when
   * the run failed, and then one whose activity is the latest among those it swept.
   */
  lemma {:induction false} SweepLaws(a: Actors, outcome: Outcome, again: Outcome)
    ensures var b := Sweep(a, outcome);
            && |b.participants| == |a.participants|
            && Sweep(b, again) == b
            && (forall k :: 0 <= k < |a.participants| ==>
                  && b.participants[k].status.Terminal()
                  && (a.participants[k].status.Terminal() ==> b.participants[k] == a.participants[k])
                  && (!a.participants[k].status.Terminal() && b.participants[k].status.Failed? ==>
                        && outcome.Broke? && Blamed(a.participants, outcome) == Some(k)
                        && a.participants[k].latestActivityAt.Some?
                        && forall j :: 0 <= j < |a.participants| && !a.participants[j].status.Terminal()
                                       && a.participants[j].latestActivityAt.Some?
                             ==> a.participants[j].latestActivityAt.value <= a.participants[k].latestActivityAt.value))
  {
    var blamed := Blamed(a.participants, outcome);
    var b := Sweep(a, outcome);
    SweepSpec(a, 0, blamed);
    SweptIsFixed(b, 0, Blamed(b.participants, again));
  }

  /** `sweepTerminal` as the loop over participants, updating each and its node in place. */
  method SweepTerminal(a: Actors, outcome: Outcome) returns (r: Actors)
    ensures r == Sweep(a, outcome)
  {
    var blamed := Blamed(a.participants, outcome);
    r := a;
    var i := 0;
    while i < |r.participants|
      invariant i <= |r.participants|
      invariant SweepFrom(r, i, blamed) == Sweep(a, outcome)
    {
      var p := r.participants[i];
      if !p.status.Terminal() {
        var s := if p.latestActivityAt.None? then Skipped
                 else if blamed == Some(i) then ActorStatus.Failed else ActorStatus.Completed;
        r := WithStatus(r, i, p, s);
      }
      i := i + 1;
    }
  }

  // ---- No reactivation after the end ----------------------------------------------------------

  /** Participants keep their place and id; the ones already terminal keep their status too. */
  ghost predicate TerminalKept(a: Actors, b: Actors) {
    && |a.participants| <= |b.participants|
    && forall k :: 0 <= k < |a.participants| ==>
         && b.participants[k].participantId == a.participants[k].participantId
         && (a.participants[k].status.Terminal() ==> b.participants[k].status == a.participants[k].status)
  }

  lemma {:induction false} TouchKnownTerminal(a: Actors, run: RunStatus, i: nat, ts: Time, status: ActorStatus,
      summary: Option<string>)
    requires run.Terminal() && i < |a.participants|
    ensures TerminalKept(a, TouchKnown(a, run, i, ts, status, summary))
  {}

  lemma {:induction false} TouchTerminal(a: Actors, run: RunStatus, id: string, ts: Time, status: ActorStatus,
      summary: Option<string>)
    requires run.Terminal()
    ensures TerminalKept(a, Touch(a, run, id, ts, status, summary))
  {
    var a1 := Declare(a, id);
    var i := FindParticipant(a1.participants, id);
    assert TerminalKept(a, a1);
    if i < |a1.participants| {
      TouchKnownTerminal(a1, run, i, ts, status, summary);
    }
  }

  lemma {:induction false} TouchAllTerminal(a: Actors, run: RunStatus, ids: seq<string>, ts: Time)
    requires run.Terminal()
    ensures TerminalKept(a, TouchAll(a, run, ids, ts))
    decreases |ids|
  {
    if ids != [] {
      TouchTerminal(a, run, ids[0], ts, Waiting, None);
      TouchAllTerminal(Touch(a, run, ids[0], ts, Waiting, None), run, ids[1..], ts);
    }
  }

  lemma {:induction false} SendTerminal(a: Actors, run: RunStatus, sender: string, summary: string, to: seq<string>,
      ts: Time)
    requires run.Terminal()
    ensures TerminalKept(a, TouchAll(Touch(a, run, sender, ts, Active, Some(summary)), run, to, ts))
  {
    TouchTerminal(a, run, sender, ts, Active, Some(summary));
    TouchAllTerminal(Touch(a, run, sender, ts, Active, Some(summary)), run, to, ts);
  }

  lemma {:induction false} StepTerminal(a: Actors, run: RunStatus, e: Event)
    requires run.Terminal()
    ensures TerminalKept(a, StepActors(a, run, e))
  {
    if SweepOutcome(e).Some? {
      SweepSpec(a, 0, Blamed(a.participants, SweepOutcome(e).value));
    } else if e.kind.MessageSent? {
      var text := if e.data.messageType.Some? then e.data.messageType.value.Text() else "message.sent";
      SendTerminal(a, run, Sender(e), text, e.data.to, e.ts);
    } else if e.kind.MessageReceived? {
      var text := MessageText(e, "message.received");
      var a1 := Touch(a, run, Sender(e), e.ts, Active, Some(text));
      SendTerminal(a, run, Sender(e), text, Recipients(e, ParticipantIds(a1.participants)), e.ts);
    }
  }

  /** While the projected run status stays terminal, a participant that ended never comes back. */
  lemma {:induction false} NoReactivation(base: string, s: State, es: seq<Event>)
    requires forall k :: 0 <= k < |es| ==> Fold(base, s, es[..k]).cols.run.status.Terminal()
    ensures TerminalKept(s.cols.actors, Fold(base, s, es).cols.actors)
    decreases |es|
  {
    if es != [] {
      var n := |es| - 1;
      forall k | 0 <= k < n ensures Fold(base, s, es[..n][..k]).cols.run.status.Terminal() {
        assert es[..n][..k] == es[..k];
      }
      NoReactivation(base, s, es[..n]);
      var mid := Fold(base, s, es[..n]);
      ActorStep(base, mid, es[n]);
      StepTerminal(mid.cols.actors, mid.cols.run.status, es[n]);
    }
  }
}
