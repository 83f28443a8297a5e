/** Vote tallies and the quorum status over whole event sequences. */
module Quorum {
  import opened Prelude
  import opened Events
  import opened Projection

  function QuorumRank(q: Option<QuorumStatus>): nat {
    match q
    case None => 0
    case Some(Pending) => 1
    case Some(QuorumFailed) => 2
    case Some(Reached) => 3
  }

  /** The policy column reads the participants, so its fold carries the actors' side along. */
  lemma {:induction false} PolicyStep(base: string, s: State, e: Event)
    ensures Step(base, s, e).cols.policy == StepPolicy(s.cols.policy, s.cols.actors.participants, e)
  {}

  lemma {:induction false} QuorumStepRises(p: Policy, ps: seq<Participant>, e: Event)
    ensures QuorumRank(p.quorumStatus) <= QuorumRank(StepPolicy(p, ps, e).quorumStatus)
  {}

  /** The quorum status only moves up: unset, pending, failed, reached. */
  lemma {:induction false} QuorumOnlyRises(base: string, s: State, es: seq<Event>)
    ensures QuorumRank(s.cols.policy.quorumStatus) <= QuorumRank(Fold(base, s, es).cols.policy.quorumStatus)
    decreases |es|
  {
    if es != [] {
      var before := Fold(base, s, es[..|es| - 1]);
      QuorumOnlyRises(base, s, es[..|es| - 1]);
      PolicyStep(base, before, es[|es| - 1]);
      QuorumStepRises(before.cols.policy, before.cols.actors.participants, es[|es| - 1]);
    }
  }

  function EntryFor(t: seq<TallyEntry>, id: string): TallyEntry {
    var i := FindTally(t, id);
    if i < |t| then t[i] else TallyEntry(id, 0, 0, 0, 0, 0)
  }

  function Sum(t: seq<TallyEntry>, v: Verdict): nat {
    if t == [] then 0 else Sum(t[..|t| - 1], v) + if v.Allow? then t[|t| - 1].allow else t[|t| - 1].deny
  }

  ghost predicate TallyOk(t: seq<TallyEntry>) {
    && (forall i, j :: 0 <= i < j < |t| ==> t[i].commitmentId != t[j].commitmentId)
    && (forall i :: 0 <= i < |t| ==> t[i].cast == t[i].allow + t[i].deny && t[i].cast > 0)
  }

  lemma FindTallyIs(t: seq<TallyEntry>, id: string, i: nat)
    requires i <= |t| && (i < |t| ==> t[i].commitmentId == id)
    requires forall j :: 0 <= j < i ==> t[j].commitmentId != id
    ensures FindTally(t, id) == i
  {}

  lemma {:induction false} SumUpdate(t: seq<TallyEntry>, i: nat, x: TallyEntry, v: Verdict)
    requires i < |t|
    ensures Sum(t[i := x], v) == Sum(t, v) - (if v.Allow? then t[i].allow else t[i].deny) + (if v.Allow? then x.allow else x.deny)
  {
    var n := |t| - 1;
    if i == n {
      assert t[i := x][..n] == t[..n];
    } else {
      assert t[i := x][..n] == t[..n][i := x];
      SumUpdate(t[..n], i, x, v);
    }
  }

  lemma {:induction false} BumpKeepsOk(t: seq<TallyEntry>, id: string, v: Verdict, required: nat)
    requires TallyOk(t)
    ensures TallyOk(BumpTally(t, id, v, required))
  {}

  /** A bump adds one to the named commitment and nothing to any other. */
  lemma {:induction false} BumpEntryFor(t: seq<TallyEntry>, id: string, v: Verdict, required: nat, c: string)
    ensures var a, b := EntryFor(t, c), EntryFor(BumpTally(t, id, v, required), c);
            && b.allow == a.allow + (if c == id && v.Allow? then 1 else 0)
            && b.deny == a.deny + (if c == id && v.Deny? then 1 else 0)
  {
    var r := BumpTally(t, id, v, required);
    var i, k := FindTally(t, id), FindTally(t, c);
    if c == id {
      FindTallyIs(r, c, i);
    } else if k < |t| {
      FindTallyIs(r, c, k);
    } else {
      FindTallyIs(r, c, |r|);
    }
  }

  lemma {:induction false} BumpSum(t: seq<TallyEntry>, id: string, v: Verdict, required: nat, w: Verdict)
    ensures Sum(BumpTally(t, id, v, required), w) == Sum(t, w) + if v == w then 1 else 0
  {
    var i := FindTally(t, id);
    if i < |t| {
      SumUpdate(t, i, BumpEntry(t[i], v, required), w);
    } else {
      assert BumpTally(t, id, v, required)[..|t|] == t;
    }
  }

  /** The vote an event casts, if it casts one. */
  function VoteCast(e: Event): Option<Verdict> {
    if IsProposal(e) && ProposalIdOf(e) != "" then InferVote(MessageTypeOf(e), e.data.decodedPayload) else None
  }

  /** A step that casts no vote leaves the tally alone; one that does bumps exactly its commitment. */
  lemma {:induction false} TallyStep(p: Policy, ps: seq<Participant>, e: Event)
    ensures StepPolicy(p, ps, e).voteTally
         == if VoteCast(e).Some? then BumpTally(p.voteTally, ProposalIdOf(e), VoteCast(e).value, RequiredVotes(ps))
            else p.voteTally
  {}

  predicate Casts(vote: Option<Verdict>, target: string, id: string, v: Verdict) { vote == Some(v) && target == id }

  function VoteOn(id: string, v: Verdict): Event -> bool { (e: Event) => Casts(VoteCast(e), ProposalIdOf(e), id, v) }
  function AnyVote(v: Verdict): Event -> bool { (e: Event) => VoteCast(e) == Some(v) }

  /**
   * Conservation: every tally entry names a distinct commitment and adds up; for every commitment
   * the allow and deny counts are the numbers of vote-bearing events of the log for it; and the
   * totals over all entries are the numbers of vote-bearing events of each kind.
   */
  lemma {:induction false} TallyCountsTheLog(runId: string, es: seq<Event>, id: string)
    ensures var t := Apply(Empty(runId), es).cols.policy.voteTally;
            && TallyOk(t)
            && EntryFor(t, id).allow == Count(VoteOn(id, Allow), es)
            && EntryFor(t, id).deny == Count(VoteOn(id, Deny), es)
            && Sum(t, Allow) == Count(AnyVote(Allow), es)
            && Sum(t, Deny) == Count(AnyVote(Deny), es)
    decreases |es|
  {
    if es != [] {
      var n := |es| - 1;
      TallyCountsTheLog(runId, es[..n], id);
      var before := Apply(Empty(runId), es[..n]);
      PolicyStep(runId, before, es[n]);
      CountVote(before.cols.policy, before.cols.actors.participants, es[n], id);
    }
  }

  lemma {:induction false} CountVote(p: Policy, ps: seq<Participant>, e: Event, id: string)
    requires TallyOk(p.voteTally)
    ensures var s, t := p.voteTally, StepPolicy(p, ps, e).voteTally;
            && TallyOk(t)
            && EntryFor(t, id).allow == EntryFor(s, id).allow + (if VoteOn(id, Allow)(e) then 1 else 0)
            && EntryFor(t, id).deny == EntryFor(s, id).deny + (if VoteOn(id, Deny)(e) then 1 else 0)
            && Sum(t, Allow) == Sum(s, Allow) + (if AnyVote(Allow)(e) then 1 else 0)
            && Sum(t, Deny) == Sum(s, Deny) + (if AnyVote(Deny)(e) then 1 else 0)
  {
    TallyStep(p, ps, e);
    if VoteCast(e).Some? {
      var v, target, required := VoteCast(e).value, ProposalIdOf(e), RequiredVotes(ps);
      BumpKeepsOk(p.voteTally, target, v, required);
      BumpEntryFor(p.voteTally, target, v, required, id);
      BumpSum(p.voteTally, target, v, required, Allow);
      BumpSum(p.voteTally, target, v, required, Deny);
    }
  }
}
