/**
 * What the reducer makes of one event's words: votes, outcomes, contributions, rulings, references.
 * Every statement here is about the event's own data, never about how the reducer reads it.
 */
module Words {
  import opened Prelude
  import opened Events
  import opened Projection

  // ---- Words in any case ----------------------------------------------------------------------

  predicate SameLetter(a: char, b: char) {
    a == b || ('A' <= a <= 'Z' && b as int == a as int + 32) || ('A' <= b <= 'Z' && a as int == b as int + 32)
  }

  /** The same word but for upper and lower case. */
  predicate Spells(raw: string, word: string) { |raw| == |word| && forall i :: 0 <= i < |raw| ==> SameLetter(raw[i], word[i]) }

  ghost predicate SaysOneOf(raw: string, words: set<string>) { exists w :: w in words && Spells(raw, w) }

  predicate Capitals(w: string) { forall i :: 0 <= i < |w| ==> 'A' <= w[i] <= 'Z' }
  predicate Smalls(w: string) { forall i :: 0 <= i < |w| ==> 'a' <= w[i] <= 'z' }

  lemma {:induction false} UpperSpells(raw: string, w: string)
    requires Capitals(w)
    ensures Upper(raw) == w <==> Spells(raw, w)
  {
    MapIndex(UpperChar, raw);
    if Upper(raw) == w {
      forall i | 0 <= i < |raw| ensures SameLetter(raw[i], w[i]) { assert Upper(raw)[i] == w[i]; }
    }
  }

  lemma {:induction false} LowerSpells(raw: string, w: string)
    requires Smalls(w)
    ensures Lower(raw) == w <==> Spells(raw, w)
  {
    MapIndex(LowerChar, raw);
    if Lower(raw) == w {
      forall i | 0 <= i < |raw| ensures SameLetter(raw[i], w[i]) { assert Lower(raw)[i] == w[i]; }
    }
  }

  const ALLOWING: set<string> := {"APPROVE", "ACCEPT", "ALLOW", "YES"}
  const DENYING: set<string> := {"REJECT", "DENY", "BLOCK", "NO"}

  lemma {:induction false} UpperSays(raw: string, words: set<string>)
    requires forall w :: w in words ==> Capitals(w)
    ensures Upper(raw) in words <==> SaysOneOf(raw, words)
  {
    if Upper(raw) in words { UpperSpells(raw, Upper(raw)); }
    if w :| w in words && Spells(raw, w) { UpperSpells(raw, w); }
  }

  lemma {:induction false} LowerSays(raw: string, words: set<string>)
    requires forall w :: w in words ==> Smalls(w)
    ensures Lower(raw) in words <==> SaysOneOf(raw, words)
  {
    if Lower(raw) in words { LowerSpells(raw, Lower(raw)); }
    if w :| w in words && Spells(raw, w) { LowerSpells(raw, w); }
  }

  // ---- Votes ----------------------------------------------------------------------------------

  /** The word a payload votes with: `vote`, else `recommendation`. */
  function Ballot(p: Option<Payload>): string {
    match p
    case Some(q) => (match q.vote case Some(v) => v case None => q.recommendation.Or(""))
    case None => ""
  }

  /**
   * A message votes to allow, or to deny, by a word that says so in any case; and if its word says
   * neither, by its type.
   */
  lemma {:induction false} VoteIff(m: MessageType, p: Option<Payload>)
    ensures InferVote(m, p) == Some(Allow) <==>
      || SaysOneOf(Ballot(p), ALLOWING)
      || (!SaysOneOf(Ballot(p), DENYING) && m in {Accept, Approve, TaskAccept, HandoffAccept})
    ensures InferVote(m, p) == Some(Deny) <==>
      || SaysOneOf(Ballot(p), DENYING)
      || (!SaysOneOf(Ballot(p), ALLOWING) && m in {Reject, TaskReject, HandoffDecline})
  {
    UpperSays(Ballot(p), ALLOWING);
    UpperSays(Ballot(p), DENYING);
    DisjointWords();
    VoteByWord(m, p, Upper(Ballot(p)));
  }

  lemma {:induction false} VoteByWord(m: MessageType, p: Option<Payload>, word: string)
    requires word == Upper(Ballot(p))
    ensures InferVote(m, p) ==
      if word in ALLOWING then Some(Allow)
      else if word in DENYING then Some(Deny)
      else if m in {Accept, Approve, TaskAccept, HandoffAccept} then Some(Allow)
      else if m in {Reject, TaskReject, HandoffDecline} then Some(Deny)
      else None
  {}

  lemma {:induction false} DisjointWords()
    ensures ALLOWING !! DENYING
  {
    assert "APPROVE"[0] == 'A' && "ACCEPT"[0] == 'A' && "ALLOW"[0] == 'A' && "YES"[0] == 'Y';
    assert "REJECT"[0] == 'R' && "DENY"[0] == 'D' && "BLOCK"[0] == 'B' && "NO"[0] == 'N';
  }

  predicate Votes(c: Contribution) { c.vote.Some? }
  predicate Approves(c: Contribution) { c.vote == Some(Allow) }

  /** The share of approvals among those that vote: `r` times the votes is the approvals. */
  ghost predicate IsShare(s: seq<Contribution>, r: Option<real>) {
    if Count(Votes, s) == 0 then r.None?
    else r.Some? && r.value * Count(Votes, s) as real == Count(Approves, s) as real
  }

  lemma {:induction false} CountVoteStep(s: seq<Contribution>, v: Verdict)
    requires s != []
    ensures CountVotes(s, v) == CountVotes(s[..|s| - 1], v) + if s[|s| - 1].vote == Some(v) then 1 else 0
  {}

  lemma {:induction false} VotesAddUp(s: seq<Contribution>)
    ensures CountVotes(s, Allow) == Count(Approves, s)
    ensures CountVotes(s, Allow) + CountVotes(s, Deny) == Count(Votes, s)
    decreases |s|
  {
    if s != [] {
      var n := |s| - 1;
      VotesAddUp(s[..n]);
      CountVoteStep(s, Allow);
      CountVoteStep(s, Deny);
      assert s[n].vote.Some? ==> s[n].vote.value.Allow? || s[n].vote.value.Deny?;
    }
  }

  lemma {:induction false} RatioIsShare(s: seq<Contribution>)
    ensures IsShare(s, ApproveRatio(s))
  {
    VotesAddUp(s);
  }

  // ---- Outcomes -------------------------------------------------------------------------------

  const POSITIVE: set<string> := {"approve", "approved", "accept", "accepted", "selected", "completed"}
  const NEGATIVE: set<string> := {"reject", "rejected", "decline", "declined", "failed"}

  /** What an action says about the outcome, if it says anything. */
  lemma {:induction false} OutcomeIff(action: string)
    ensures InferOutcome(action) == Some(true) <==> SaysOneOf(action, POSITIVE)
    ensures InferOutcome(action) == Some(false) <==> SaysOneOf(action, NEGATIVE)
  {
    LowerSays(action, POSITIVE);
    LowerSays(action, NEGATIVE);
    assert "approve"[0] == 'a' && "approved"[0] == 'a' && "accept"[0] == 'a' && "accepted"[0] == 'a';
    assert "selected"[0] == 's' && "completed"[0] == 'c';
    assert "reject"[0] == 'r' && "rejected"[0] == 'r' && "decline"[0] == 'd' && "declined"[0] == 'd' && "failed"[0] == 'f';
  }

  // ---- Contributions --------------------------------------------------------------------------

  /** The first of these that is not empty. */
  ghost predicate FirstNamed(candidates: seq<string>, r: string) {
    exists k :: 0 <= k < |candidates| && candidates[k] == r && r != "" && forall j :: 0 <= j < k ==> candidates[j] == ""
  }

  /** The action a payload names: `action`, else `option`, else `revisedAction`. */
  function ActionNamed(p: Option<Payload>): string {
    match p
    case Some(q) =>
      if q.action.Some? then q.action.value else if q.option.Some? then q.option.value else q.revisedAction.Or("")
    case None => ""
  }

  /** The reasons a payload gives, the empty ones left out. */
  function ReasonsGiven(p: Option<Payload>): seq<string> {
    match p
    case Some(q) => Filter((s: string) => s != "", [q.reason.Or(""), q.rationale.Or(""), q.summary.Or("")] + q.reasons)
    case None => []
  }

  ghost predicate MarkedImplicit(e: Event) {
    || (e.data.decodedPayload.Some? && e.data.decodedPayload.value.implicit)
    || exists rest: string :: e.data.messageId == Some("implicit-accept:" + rest)
  }

  /** What a proposal event contributes, field by field. */
  lemma {:induction false} ContributionSays(e: Event)
    ensures var c, p := ContributionOf(e), e.data.decodedPayload;
      var text := if e.data.messageType.Some? then e.data.messageType.value.Text() else "";
      && c.participantId == e.data.sender.Or("") && c.ts == e.ts
      && FirstNamed([Ballot(p), ActionNamed(p), text, "contribution"], c.action)
      && c.reasons == ReasonsGiven(p)
      && c.confidence == (if p.Some? && p.value.confidence.Some? then p.value.confidence
                          else if e.data.messageType == Some(VoteMessage) then Some(1.0) else None)
      && c.vote == InferVote(e.data.messageType.Or(OtherMessage("")), p)
      && c.messageType == (if text == "" then None else Some(text))
      && (c.implicit <==> MarkedImplicit(e))
  {
    var p := e.data.decodedPayload;
    ActionSays(MessageTypeOf(e), p);
    if p.Some? { ReasonsFiltered(p.value); }
    if e.data.messageId.Some? && "implicit-accept:" <= e.data.messageId.value {
      assert e.data.messageId.value == "implicit-accept:" + e.data.messageId.value[16..];
    }
  }

  lemma {:induction false} ActionSays(m: MessageType, p: Option<Payload>)
    ensures FirstNamed([Ballot(p), ActionNamed(p), m.Text(), "contribution"], InferAction(m, p))
  {
    var candidates := [Ballot(p), ActionNamed(p), m.Text(), "contribution"];
    var k := if Ballot(p) != "" then 0 else if ActionNamed(p) != "" then 1 else if m.Text() != "" then 2 else 3;
    assert candidates[k] == InferAction(m, p) && "contribution" != "";
  }

  lemma {:induction false} ReasonsFiltered(q: Payload)
    ensures ExtractReasons(Some(q)) == ReasonsGiven(Some(q))
  {
    var named := (s: string) => s != "";
    var a, b, c := q.reason.Or(""), q.rationale.Or(""), q.summary.Or("");
    FilterAppend(named, [a, b, c], q.reasons);
    assert [a, b, c] == [a] + [b] + [c];
    FilterAppend(named, [a] + [b], [c]);
    FilterAppend(named, [a], [b]);
    FilterOne(named, a);
    FilterOne(named, b);
    FilterOne(named, c);
  }

  lemma {:induction false} FilterOne<T>(keep: T -> bool, x: T)
    ensures Filter(keep, [x]) == if keep(x) then [x] else []
  {
    assert [x][..0] == [];
  }

  // ---- References to an earlier commitment ----------------------------------------------------

  /** Section 9 of RFC-MACP-0013: 64 lower-case hexadecimal digits behind `sha256:`. */
  ghost predicate Canonical(h: string) {
    exists digits: string :: h == "sha256:" + digits && |digits| == 64 && forall i :: 0 <= i < 64 ==> digits[i] in "0123456789abcdef"
  }

  lemma {:induction false} CanonicalIff(h: string)
    ensures IsCanonicalHash(h) <==> Canonical(h)
  {
    if IsCanonicalHash(h) {
      var digits := h[7..];
      assert h == "sha256:" + digits;
      forall i | 0 <= i < 64 ensures digits[i] in "0123456789abcdef" { HexDigits(digits[i]); }
    }
    if digits: string :| h == "sha256:" + digits && |digits| == 64 && forall i :: 0 <= i < 64 ==> digits[i] in "0123456789abcdef" {
      forall i | 7 <= i < 71 ensures IsHexDigit(h[i]) {
        assert h[i] == digits[i - 7];
        HexDigits(h[i]);
      }
    }
  }

  lemma {:induction false} HexDigits(c: char)
    ensures IsHexDigit(c) <==> c in "0123456789abcdef"
  {
    var s := "0123456789abcdef";
    assert s[0] == '0' && s[1] == '1' && s[2] == '2' && s[3] == '3' && s[4] == '4' && s[5] == '5' && s[6] == '6' && s[7] == '7';
    assert s[8] == '8' && s[9] == '9' && s[10] == 'a' && s[11] == 'b' && s[12] == 'c' && s[13] == 'd' && s[14] == 'e' && s[15] == 'f';
  }

  /** The reference a commitment carries: none if it names neither session nor hash. */
  lemma {:induction false} ReferenceSays(e: Event)
    ensures var p := e.data.decodedPayload;
      match FinalSupersedes(e)
      case None => p.None? || p.value.supersedes in {None, Some(CommitmentRef("", ""))}
      case Some(s) =>
        && p.Some? && p.value.supersedes == Some(CommitmentRef(s.sessionId, s.commitmentHash))
        && (s.sessionId != "" || s.commitmentHash != "") && (s.canonical <==> Canonical(s.commitmentHash))
  {
    if FinalSupersedes(e).Some? { CanonicalIff(FinalSupersedes(e).value.commitmentHash); }
  }

  // ---- A commitment ---------------------------------------------------------------------------

  /** What a finalization decides: the action and the reason it names, and the outcome it gives or its action says. */
  lemma {:induction false} FinalSays(e: Event)
    ensures var p := e.data.decodedPayload;
      && FinalAction(e) == (if p.Some? && p.value.action.Some? then p.value.action.value else "resolved")
      && FinalReasons(e) == [if p.Some? && p.value.reason.Some? then p.value.reason.value else "Commitment observed"]
      && (p.Some? && p.value.outcomePositive.Some? ==> FinalOutcome(e) == p.value.outcomePositive)
      && (p.None? || p.value.outcomePositive.None? ==>
            && (FinalOutcome(e) == Some(true) <==> SaysOneOf(FinalAction(e), POSITIVE))
            && (FinalOutcome(e) == Some(false) <==> SaysOneOf(FinalAction(e), NEGATIVE)))
  {
    OutcomeIff(FinalAction(e));
  }
}
