/** What single events do to participants and nodes, said of each participant by itself. */
module MessageLaws {
  import opened Prelude
  import opened Events
  import opened Projection
  import opened ActorLaws

  // ---- Who a message is from and to -----------------------------------------------------------

  function From(e: Event): string {
    if e.data.sender.Some? then e.data.sender.value else if e.data.from.Some? then e.data.from.value else ""
  }

  /** What a message is called: its type, else the event's. */
  function Called(e: Event): string {
    match e.data.messageType
    case Some(m) => if m.Text() != "" || e.kind == MessageSent then m.Text() else "message.received"
    case None => if e.kind == MessageSent then "message.sent" else "message.received"
  }

  /**
   * Whom a received message is to: those it names; else, for a SessionStart, the participants its
   * payload lists, and for a Proposal the participants there are, the sender excepted.
   */
  function To(e: Event, declared: seq<string>): seq<string> {
    if e.data.to != [] then e.data.to
    else match e.data.messageType
      case Some(SessionStart) =>
        Filter((s: string) => s != From(e),
               if e.data.decodedPayload.Some? then e.data.decodedPayload.value.participants
               else if e.data.payload.Some? then e.data.payload.value.participants else [])
      case Some(Proposal) => Filter((s: string) => s != From(e), declared)
      case _ => []
  }

  lemma {:induction false} SameFilter<T>(p: T -> bool, q: T -> bool, s: seq<T>)
    requires forall x :: x in s ==> p(x) == q(x)
    ensures Filter(p, s) == Filter(q, s)
    decreases |s|
  {
    if s != [] { SameFilter(p, q, s[..|s| - 1]); }
  }

  lemma {:induction false} ToIs(e: Event, declared: seq<string>)
    ensures From(e) == Sender(e) && To(e, declared) == Recipients(e, declared)
    ensures e.kind == MessageReceived ==> Called(e) == MessageText(e, "message.received")
  {
    SameFilter((s: string) => s != From(e), s => s != Sender(e), declared);
    var p := e.data.decodedPayload.OrElse(e.data.payload);
    if p.Some? { SameFilter((s: string) => s != From(e), s => s != Sender(e), p.value.participants); }
  }

  // ---- One participant at a time --------------------------------------------------------------

  /** What is on record of a participant. */
  function Record(ps: seq<Participant>, id: string): Option<Participant> {
    var i := FindParticipant(ps, id);
    if i < |ps| then Some(ps[i]) else None
  }

  function Known(ps: seq<Participant>, id: string): Participant { Record(ps, id).Or(Participant(id, None, Idle, None, None)) }

  lemma FoundAt(ps: seq<Participant>, id: string, i: nat)
    requires i <= |ps| && (i < |ps| ==> ps[i].participantId == id)
    requires forall j :: 0 <= j < i ==> ps[j].participantId != id
    ensures FindParticipant(ps, id) == i
  {}

  /** Everybody keeps their place; newcomers come after. */
  ghost predicate PlacesKept(ps: seq<Participant>, qs: seq<Participant>) {
    |ps| <= |qs| && forall k :: 0 <= k < |ps| ==> qs[k].participantId == ps[k].participantId
  }

  /**
   * A participant seen at `ts`: as it was, but for the time, a summary if there is one, and its status
   * unless it and the run have ended.
   */
  function SeenAs(p: Participant, run: RunStatus, ts: Time, status: ActorStatus, summary: string): Participant {
    p.(latestActivityAt := Some(ts),
       latestSummary := if summary != "" then Some(summary) else p.latestSummary,
       status := if run in {RunStatus.Completed, RunStatus.Failed, RunStatus.Cancelled}
                    && p.status in {ActorStatus.Completed, ActorStatus.Failed, Skipped} then p.status else status)
  }

  lemma {:induction false} DeclareRecord(a: Actors, id: string, x: string)
    ensures var b := Declare(a, id);
      && PlacesKept(a.participants, b.participants)
      && Record(b.participants, x) == if x == id then Some(Known(a.participants, id)) else Record(a.participants, x)
  {
    var b, i := Declare(a, id), FindParticipant(a.participants, x);
    FoundAt(b.participants, x, if x == id || i < |a.participants| then i else |b.participants|);
  }

  lemma {:induction false} UpdateRecord(ps: seq<Participant>, i: nat, p: Participant, x: string)
    requires i < |ps| && FindParticipant(ps, p.participantId) == i
    ensures Record(ps[i := p], x) == if x == p.participantId then Some(p) else Record(ps, x)
  {
    var k := FindParticipant(ps, x);
    FoundAt(ps[i := p], x, if x == p.participantId then i else k);
  }

  lemma {:induction false} TouchRecord(a: Actors, run: RunStatus, id: string, ts: Time, status: ActorStatus,
      summary: Option<string>, x: string)
    ensures var b := Touch(a, run, id, ts, status, summary);
      && PlacesKept(a.participants, b.participants)
      && Record(b.participants, x) == if x == id && id != ""
           then Some(SeenAs(Known(a.participants, x), run, ts, status, summary.Or(""))) else Record(a.participants, x)
  {
    if id != "" {
      var a1 := Declare(a, id);
      DeclareRecord(a, id, x);
      DeclareRecord(a, id, id);
      var i := FindParticipant(a1.participants, id);
      var p := SeenAs(a1.participants[i], run, ts, status, summary.Or(""));
      assert Touch(a, run, id, ts, status, summary).participants == a1.participants[i := p];
      UpdateRecord(a1.participants, i, p, x);
    }
  }

  lemma {:induction false} TouchAllRecord(a: Actors, run: RunStatus, ids: seq<string>, ts: Time, x: string)
    ensures var b := TouchAll(a, run, ids, ts);
      && PlacesKept(a.participants, b.participants)
      && Record(b.participants, x) == if x in ids && x != ""
           then Some(SeenAs(Known(a.participants, x), run, ts, Waiting, "")) else Record(a.participants, x)
    decreases |ids|
  {
    if ids != [] {
      var a1 := Touch(a, run, ids[0], ts, Waiting, None);
      TouchRecord(a, run, ids[0], ts, Waiting, None, x);
      TouchAllRecord(a1, run, ids[1..], ts, x);
      assert x in ids <==> x == ids[0] || x in ids[1..];
    }
  }

  /** Whether a message is to this participant. */
  predicate IsTo(e: Event, ps: seq<Participant>, x: string) {
    if e.kind == MessageSent then x in e.data.to
    else if e.data.to != [] then x in e.data.to
    else match e.data.messageType
      case Some(SessionStart) =>
        x != From(e) && (if e.data.decodedPayload.Some? then x in e.data.decodedPayload.value.participants
                         else e.data.payload.Some? && x in e.data.payload.value.participants)
      case Some(Proposal) => x != From(e) && Record(ps, x).Some?
      case _ => false
  }

  lemma {:induction false} InTo(e: Event, a: Actors, a1: Actors, x: string)
    requires e.kind == MessageReceived
    requires Record(a1.participants, x) == Record(a.participants, x) || x == From(e)
    ensures x in Recipients(e, ParticipantIds(a1.participants)) <==> IsTo(e, a.participants, x)
  {
    var declared := ParticipantIds(a1.participants);
    ToIs(e, declared);
    FilterMembers((s: string) => s != From(e), declared);
    IdsListed(a1.participants, x);
    var p := e.data.decodedPayload.OrElse(e.data.payload);
    if p.Some? { FilterMembers((s: string) => s != From(e), p.value.participants); }
  }

  lemma {:induction false} IdsListed(ps: seq<Participant>, x: string)
    ensures x in ParticipantIds(ps) <==> Record(ps, x).Some?
  {
    MapIndex((p: Participant) => p.participantId, ps);
    var i := FindParticipant(ps, x);
    if i < |ps| { assert ParticipantIds(ps)[i] == x; }
  }

  /** Touched as the sender, then as those it is to. */
  lemma {:induction false} TouchedBoth(a: Actors, run: RunStatus, sender: string, name: string, to: seq<string>, ts: Time,
      x: string)
    ensures var a1 := Touch(a, run, sender, ts, Active, Some(name));
      var after := TouchAll(a1, run, to, ts).participants;
      && PlacesKept(a.participants, after)
      && (x != sender ==> Record(a1.participants, x) == Record(a.participants, x))
      && Record(after, x) ==
           if x != "" && (x == sender || x in to) then
             Some(SeenAs(Known(a.participants, x), run, ts, if x in to then Waiting else Active, if x == sender then name else ""))
           else Record(a.participants, x)
  {
    TouchRecord(a, run, sender, ts, Active, Some(name), x);
    TouchAllRecord(Touch(a, run, sender, ts, Active, Some(name)), run, to, ts, x);
  }

  /** A message touches its sender, and then those it is to. */
  lemma {:induction false} MessageTouches(a: Actors, run: RunStatus, e: Event)
    requires e.kind in {MessageSent, MessageReceived}
    ensures var a1 := Touch(a, run, From(e), e.ts, Active, Some(Called(e)));
      StepActors(a, run, e).participants ==
      TouchAll(a1, run, if e.kind == MessageSent then e.data.to else Recipients(e, ParticipantIds(a1.participants)), e.ts).participants
  {
    ToIs(e, []);
  }

  /**
   * What a message does to a participant: those it is to are waiting, its sender is active and goes by
   * its name (unless they and the run have ended), all seen at its time; nobody else is touched, and
   * everybody keeps their place.
   */
  lemma {:induction false} MessageSays(a: Actors, run: RunStatus, e: Event, x: string)
    requires e.kind in {MessageSent, MessageReceived}
    ensures var after := StepActors(a, run, e).participants;
      && PlacesKept(a.participants, after)
      && (x != "" && (x == From(e) || IsTo(e, a.participants, x)) ==>
            Record(after, x) == Some(SeenAs(Known(a.participants, x), run, e.ts,
              if IsTo(e, a.participants, x) then Waiting else Active, if x == From(e) then Called(e) else "")))
      && (x == "" || (x != From(e) && !IsTo(e, a.participants, x)) ==> Record(after, x) == Record(a.participants, x))
  {
    var a1 := Touch(a, run, From(e), e.ts, Active, Some(Called(e)));
    var to := if e.kind == MessageSent then e.data.to else Recipients(e, ParticipantIds(a1.participants));
    MessageTouches(a, run, e);
    TouchedBoth(a, run, From(e), Called(e), to, e.ts, x);
    if e.kind == MessageReceived { InTo(e, a, a1, x); }
  }

  /** A participant seen without a message is added idle, unless there already. */
  lemma {:induction false} SeenSays(a: Actors, run: RunStatus, e: Event, x: string)
    requires e.kind == ParticipantSeen
    ensures var id := if e.data.participantId.Some? then e.data.participantId.value else e.SubjectId().Or("");
      && PlacesKept(a.participants, StepActors(a, run, e).participants)
      && Record(StepActors(a, run, e).participants, x)
         == if x == id then Some(Known(a.participants, x)) else Record(a.participants, x)
  {
    DeclareRecord(a, if e.data.participantId.Some? then e.data.participantId.value else e.SubjectId().Or(""), x);
  }

  // ---- The end of a run -----------------------------------------------------------------------

  predicate InState(e: Event, state: SessionState) { e.kind in {SessionBound, SessionStateChanged} && e.data.state == Some(state) }

  predicate EndsBadly(e: Event) { e.kind == RunFailed || InState(e, StateExpired) }

  predicate EndsRun(e: Event) {
    EndsBadly(e) || e.kind in {RunCompleted, RunCancelled} || InState(e, StateResolved) || InState(e, StateCancelled)
  }

  predicate Unfinished(p: Participant) { p.status in {Idle, Waiting, Active} }

  /** The unfinished participant that was active last; of several, the last on the list. */
  ghost predicate ActiveLast(ps: seq<Participant>, n: nat, k: nat)
    requires k < n <= |ps|
  {
    && Unfinished(ps[k]) && ps[k].latestActivityAt.Some?
    && forall j :: 0 <= j < n && Unfinished(ps[j]) && ps[j].latestActivityAt.Some? ==>
         ps[j].latestActivityAt.value < ps[k].latestActivityAt.value
         || (ps[j].latestActivityAt == ps[k].latestActivityAt && j <= k)
  }

  lemma {:induction false} LastActiveIs(ps: seq<Participant>, n: nat, k: nat)
    requires k < n <= |ps|
    ensures LastActive(ps, n) == Some(k) <==> ActiveLast(ps, n, k)
    decreases n
  {
    if k < n - 1 { LastActiveIs(ps, n - 1, k); }
    var prev := LastActive(ps, n - 1);
    if prev.Some? { LastActiveIs(ps, n - 1, prev.value); }
  }

  /**
   * What the end of a run does to its participants, each exactly: finished ones stay as they are, ones
   * that were never active are skipped, and the rest are completed, except that a failure or an expiry
   * fails the one active last.  No other kind of event but messages and sightings touches anybody.
   */
  lemma {:induction false} EndSays(a: Actors, run: RunStatus, e: Event)
    requires e.kind !in {MessageSent, MessageReceived, ParticipantSeen}
    ensures !EndsRun(e) ==> StepActors(a, run, e) == a
    ensures EndsRun(e) ==>
      var ps, qs := a.participants, StepActors(a, run, e).participants;
      |qs| == |ps| && forall k :: 0 <= k < |ps| ==>
        qs[k] == ps[k].(status :=
          if !Unfinished(ps[k]) then ps[k].status
          else if ps[k].latestActivityAt.None? then Skipped
          else if EndsBadly(e) && ActiveLast(ps, |ps|, k) then ActorStatus.Failed
          else ActorStatus.Completed)
  {
    if EndsRun(e) {
      var ps, blamed := a.participants, Blamed(a.participants, SweepOutcome(e).value);
      SweepSpec(a, 0, blamed);
      forall k | 0 <= k < |ps| ensures blamed == Some(k) <==> EndsBadly(e) && ActiveLast(ps, |ps|, k) {
        LastActiveIs(ps, |ps|, k);
      }
    }
  }

  // ---- Lifecycle nodes ------------------------------------------------------------------------

  function NodeOf(ns: seq<Node>, id: string): Option<Node> {
    var j := FindNode(ns, id);
    if j < |ns| then Some(ns[j]) else None
  }

  /** The node with this id that a received message brings in, if it does. */
  function Brings(e: Event, id: string): Option<Node> {
    var m := e.data.messageType;
    if id == "__start" then Some(Node(id, "start", ActorStatus.Completed))
    else if id == "__proposal" && m == Some(Proposal) then Some(Node(id, "proposal", ActorStatus.Completed))
    else if id == "__decision" && m in {Some(VoteMessage), Some(Evaluation), Some(Objection)} then Some(Node(id, "decision", Active))
    else if id == "__decision" && m == Some(Commitment) then Some(Node(id, "decision", ActorStatus.Completed))
    else if id == "__outcome" && m == Some(Commitment) then Some(Node(id, "output", ActorStatus.Completed))
    else None
  }

  /** Promotion: from skipped over idle, waiting, active and completed to failed, never back. */
  predicate Promotes(was: ActorStatus, status: ActorStatus) {
    match was
    case Skipped => !status.Skipped?
    case Idle => !status.Skipped? && !status.Idle?
    case Waiting => status in {Active, ActorStatus.Completed, ActorStatus.Failed}
    case Active => status in {ActorStatus.Completed, ActorStatus.Failed}
    case Completed => status.Failed?
    case Failed => false
  }

  /** A node brought in is added, or promoted where it stands. */
  function BroughtIn(was: Option<Node>, n: Node): Node {
    match was
    case Some(o) => if Promotes(o.status, n.status) then o.(status := n.status) else o
    case None => n
  }

  lemma {:induction false} UpsertNodeOf(ns: seq<Node>, n: Node, x: string)
    ensures NodeOf(UpsertNode(ns, n), x) == if x == n.id then Some(BroughtIn(NodeOf(ns, x), n)) else NodeOf(ns, x)
  {
    var r, j := UpsertNode(ns, n), FindNode(ns, x);
    FindNodeIs(r, x, if x == n.id || j < |ns| then j else |r|);
  }

  ghost predicate NodesFollow(ns: seq<Node>, e: Event, x: string) {
    NodeOf(LifecycleNodes(ns, MessageTypeOf(e)), x) ==
      match Brings(e, x) case Some(n) => Some(BroughtIn(NodeOf(ns, x), n)) case None => NodeOf(ns, x)
  }

  lemma {:induction false} CommitmentBrings(ns: seq<Node>, e: Event, x: string)
    requires e.data.messageType == Some(Commitment)
    ensures NodesFollow(ns, e, x)
  {
    var n1 := UpsertNode(ns, START_NODE);
    LifecycleIdsDiffer();
    UpsertNodeOf(ns, START_NODE, x);
    UpsertNodeOf(n1, DECISION_DONE, x);
    UpsertNodeOf(UpsertNode(n1, DECISION_DONE), OUTCOME_NODE, x);
  }

  lemma {:induction false} BallotBrings(ns: seq<Node>, e: Event, x: string)
    requires e.data.messageType in {Some(VoteMessage), Some(Evaluation), Some(Objection)}
    ensures NodesFollow(ns, e, x)
  {
    LifecycleIdsDiffer();
    UpsertNodeOf(ns, START_NODE, x);
    UpsertNodeOf(UpsertNode(ns, START_NODE), DECISION_ACTIVE, x);
  }

  lemma {:induction false} ProposalBrings(ns: seq<Node>, e: Event, x: string)
    requires e.data.messageType == Some(Proposal)
    ensures NodesFollow(ns, e, x)
  {
    LifecycleIdsDiffer();
    UpsertNodeOf(ns, START_NODE, x);
    UpsertNodeOf(UpsertNode(ns, START_NODE), PROPOSAL_NODE, x);
  }

  lemma {:induction false} NodesBrought(ns: seq<Node>, e: Event, x: string)
    ensures NodesFollow(ns, e, x)
  {
    match e.data.messageType
    case Some(Proposal) => ProposalBrings(ns, e, x);
    case Some(VoteMessage) => BallotBrings(ns, e, x);
    case Some(Evaluation) => BallotBrings(ns, e, x);
    case Some(Objection) => BallotBrings(ns, e, x);
    case Some(Commitment) => CommitmentBrings(ns, e, x);
    case _ =>
      LifecycleIdsDiffer();
      UpsertNodeOf(ns, START_NODE, x);
  }

  /** A received message brings in its lifecycle nodes, and changes no node but those and its participants'. */
  lemma {:induction false} LifecycleSays(a: Actors, run: RunStatus, e: Event, x: string)
    requires e.kind == MessageReceived
    ensures var after, touched := NodeOf(StepActors(a, run, e).nodes, x), NodeOf(Reach(a, run, e).nodes, x);
      after == match Brings(e, x) case Some(n) => Some(BroughtIn(touched, n)) case None => touched
  {
    NodesBrought(Reach(a, run, e).nodes, e, x);
  }

  lemma {:induction false} LifecycleIdsDiffer()
    ensures "__start" != "__proposal" && "__start" != "__decision" && "__start" != "__outcome"
    ensures "__decision" != "__outcome"
  {
    assert "__start"[2] == 's' && "__proposal"[2] == 'p' && "__decision"[2] == 'd' && "__outcome"[2] == 'o';
  }
}
