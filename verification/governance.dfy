/** The store governance page: casting a vote weighted by the voter's current
    balance, the "for" share of a proposal's tally, the active-proposal
    counter, the time-remaining label, and which controls the page offers.

    The page writes vote rows only. It does not reject a second vote by the
    same user, does not touch the proposal tallies, and never moves a
    proposal out of `'active'`; any of that would happen in the backend. */
module Governance {
  import opened Common
  import SM = StoreMembership

  datatype VoteType = For | Against

  /** A `governance_proposals` row as the page reads it; `status` is free text. */
  datatype Proposal = Proposal(
    id: string,
    title: string,
    proposalType: string,
    status: string,
    votesFor: real,
    votesAgainst: real,
    expiresAtMs: int,
    creatorId: string)

  /** A `governance_votes` row. */
  datatype Vote = Vote(proposalId: string, userId: string, voteType: VoteType, tokenWeight: real)

  const ActiveStatus: string := "active"

  predicate IsActive(p: Proposal)
  {
    p.status == ActiveStatus
  }

  /** `handleVote(proposalId, voteType)` against the vote table. Without a
      membership nothing happens; a missing user makes `user!.id` throw into
      the handler's catch, and a rejected insert is caught the same way. */
  function HandleVote(membership: Option<SM.Membership>, user: Option<string>, proposalId: string,
                      voteType: VoteType, votes: seq<Vote>, backendOk: bool): (r: seq<Vote>)
    ensures |r| == |votes| + 1 <==> membership.Some? && user.Some? && backendOk
    ensures |r| != |votes| + 1 ==> r == votes
    ensures r[..|votes|] == votes
    ensures |r| == |votes| + 1 ==>
      r[|votes|] == Vote(proposalId, user.value, voteType, membership.value.tokenBalance)
  {
    if membership.None? then votes
    else if user.None? then votes
    else if !backendOk then votes
    else votes + [Vote(proposalId, user.value, voteType, membership.value.tokenBalance)]
  }

  /** The weight is a snapshot: a later credit to the voter changes the
      balance but not the vote already cast. */
  lemma WeightIsSnapshot(s: SM.HookState, proposalId: string, voteType: VoteType,
                         votes: seq<Vote>, credit: real)
    requires s.membership.Some? && s.user.Some?
    ensures
      var cast := HandleVote(s.membership, s.user, proposalId, voteType, votes, true);
      var later := SM.PurchaseTokens(s, credit, true).state;
      && |cast| == |votes| + 1
      && cast[|votes|].tokenWeight == s.membership.value.tokenBalance
      && later.membership.value.tokenBalance == cast[|votes|].tokenWeight + credit
  {
  }

  /** The scenario of a 40-token voter who later receives 1000 tokens. */
  lemma FortyTokenVoteScenario(s: SM.HookState, proposalId: string, votes: seq<Vote>)
    requires s.membership.Some? && s.user.Some? && s.membership.value.tokenBalance == 40.0
    ensures
      var cast := HandleVote(s.membership, s.user, proposalId, For, votes, true);
      && cast[|votes|].tokenWeight == 40.0
      && cast[|votes|].voteType == For
      && SM.PurchaseTokens(s, 1000.0, true).state.membership.value.tokenBalance == 1040.0
  {
  }

  /** Nothing in the page stops a second vote by the same user. */
  lemma SecondVoteIsRecorded(s: SM.HookState, proposalId: string, votes: seq<Vote>)
    requires s.membership.Some? && s.user.Some?
    ensures
      var once := HandleVote(s.membership, s.user, proposalId, For, votes, true);
      var twice := HandleVote(s.membership, s.user, proposalId, For, once, true);
      |twice| == |votes| + 2 && twice[|votes|] == twice[|votes| + 1]
  {
  }

  /** The progress bar value: the "for" tally as a share of all votes. */
  function ForPercentage(votesFor: real, votesAgainst: real): (r: real)
    ensures votesFor + votesAgainst <= 0.0 ==> r == 0.0
    ensures votesFor + votesAgainst > 0.0 ==> r * (votesFor + votesAgainst) == votesFor * 100.0
    ensures votesFor >= 0.0 && votesAgainst >= 0.0 ==> 0.0 <= r <= 100.0
    ensures votesFor >= 0.0 && votesAgainst >= 0.0 && votesFor + votesAgainst > 0.0 ==>
      (r == 100.0 <==> votesAgainst == 0.0)
  {
    var totalVotes := votesFor + votesAgainst;
    if totalVotes > 0.0 then
      var r := (votesFor / totalVotes) * 100.0;
      ShareOfTotal(votesFor, totalVotes);
      r
    else 0.0
  }

  /** A percentage share times the total gives back the part, times 100. */
  lemma ShareOfTotal(part: real, total: real)
    requires total > 0.0
    ensures (part / total) * 100.0 * total == part * 100.0
  {
    var q := part / total;
    assert q * total == part;
    assert q * 100.0 * total == (q * total) * 100.0;
  }

  /** The "Aktif Teklif" counter. */
  function ActiveProposalCount(proposals: seq<Proposal>): (n: nat)
    ensures n <= |proposals|
    ensures n == 0 <==> forall i :: 0 <= i < |proposals| ==> !IsActive(proposals[i])
    ensures n == |proposals| <==> forall i :: 0 <= i < |proposals| ==> IsActive(proposals[i])
    ensures n == |Filter(proposals, IsActive)|
  {
    CountOf(proposals, IsActive)
  }

  const MsPerHour: int := 1000 * 60 * 60
  const MsPerDay: int := 1000 * 60 * 60 * 24

  /** What `formatTimeRemaining` shows, before rendering to text. */
  datatype TimeLabel = Expired | HoursLeft(hours: int) | DaysHoursLeft(days: int, hours: int)

  function DaysOf(t: TimeLabel): int
  {
    if t.DaysHoursLeft? then t.days else 0
  }

  function HoursOf(t: TimeLabel): int
  {
    if t.Expired? then 0 else t.hours
  }

  /** `formatTimeRemaining(expiresAt)` on millisecond timestamps; the clock
      reading `nowMs` is a parameter. For a positive difference JavaScript's
      `Math.floor` and `%` agree with Dafny's `/` and `%`. */
  function FormatTimeRemaining(expiresAtMs: int, nowMs: int): (r: TimeLabel)
    ensures r == Expired <==> expiresAtMs - nowMs <= 0
    ensures expiresAtMs - nowMs > 0 ==>
      && 0 <= DaysOf(r) && 0 <= HoursOf(r) <= 23
      && DaysOf(r) * MsPerDay + HoursOf(r) * MsPerHour <= expiresAtMs - nowMs
      && expiresAtMs - nowMs < DaysOf(r) * MsPerDay + (HoursOf(r) + 1) * MsPerHour
      && (r.DaysHoursLeft? <==> DaysOf(r) > 0)
  {
    var diff := expiresAtMs - nowMs;
    if diff <= 0 then Expired
    else
      var days := diff / MsPerDay;
      var hours := (diff % MsPerDay) / MsPerHour;
      if days > 0 then DaysHoursLeft(days, hours) else HoursLeft(hours)
  }

  /** The label as the page prints it. */
  function Render(t: TimeLabel): string
  {
    match t
    case Expired => "Süresi dolmuş"
    case DaysHoursLeft(d, h) =>
      NatToString(if d < 0 then 0 else d) + " gün " + NatToString(if h < 0 then 0 else h) + " saat kaldı"
    case HoursLeft(h) => NatToString(if h < 0 then 0 else h) + " saat kaldı"
  }

  /** With less than an hour left the page still counts the proposal as open. */
  lemma UnderAnHourIsNotExpired(expiresAtMs: int, nowMs: int)
    requires 0 < expiresAtMs - nowMs < MsPerHour
    ensures FormatTimeRemaining(expiresAtMs, nowMs) == HoursLeft(0)
    ensures Render(FormatTimeRemaining(expiresAtMs, nowMs)) == "0 saat kaldı"
  {
  }

  /** The expired text is shown exactly when no time is left. */
  lemma ExpiredTextIffNoTimeLeft(expiresAtMs: int, nowMs: int)
    ensures Render(FormatTimeRemaining(expiresAtMs, nowMs)) == "Süresi dolmuş" <==> expiresAtMs <= nowMs
  {
    var t := FormatTimeRemaining(expiresAtMs, nowMs);
    if !t.Expired? {
      var s := Render(t);
      assert '0' <= s[0] <= '9';
      assert "Süresi dolmuş"[0] == 'S';
    }
  }

  /** What the page shows, in the order its early returns are tried. */
  datatype PageView = Loading | StoreNotFound | SignInPrompt | JoinOffer(premiumOffered: bool) | MemberPage

  function View(loading: bool, s: SM.HookState): (v: PageView)
    ensures v == MemberPage <==> !loading && s.store.Some? && s.user.Some? && SM.IsMember(s)
    ensures v.JoinOffer? ==> s.store.Some? && v.premiumOffered == s.store.value.hasPremiumMembership
  {
    if loading then Loading
    else if s.store.None? then StoreNotFound
    else if s.user.None? then SignInPrompt
    else if !SM.IsMember(s) then JoinOffer(s.store.value.hasPremiumMembership)
    else MemberPage
  }

  /** The vote buttons under one proposal card. */
  predicate VoteButtonsShown(s: SM.HookState, p: Proposal)
  {
    SM.CanVote(s) && IsActive(p)
  }

  /** The create-proposal dialog trigger. */
  predicate CreateProposalShown(s: SM.HookState)
  {
    SM.CanCreateProposal(s)
  }

  /** The upgrade button. */
  predicate UpgradeShown(s: SM.HookState)
  {
    !SM.IsPremium(s) && s.store.Some? && s.store.value.hasPremiumMembership
  }

  /** A vote button is only offered to an active member with a positive
      balance, so pressing it on the member page reaches the insert. */
  lemma VoteButtonsNeedMembership(s: SM.HookState, p: Proposal, votes: seq<Vote>, voteType: VoteType)
    requires View(false, s) == MemberPage && VoteButtonsShown(s, p)
    ensures s.membership.Some? && s.membership.value.isActive && s.membership.value.tokenBalance > 0.0
    ensures |HandleVote(s.membership, s.user, p.id, voteType, votes, true)| == |votes| + 1
    ensures HandleVote(s.membership, s.user, p.id, voteType, votes, true)[|votes|].tokenWeight > 0.0
  {
  }

  /** Proposal rights imply the vote buttons on every active proposal. */
  lemma CreateImpliesVoteButtons(s: SM.HookState, p: Proposal)
    requires CreateProposalShown(s) && IsActive(p)
    ensures VoteButtonsShown(s, p)
  {
  }

  /** A successful upgrade removes the upgrade button. */
  lemma UpgradeHidesButton(s: SM.HookState)
    requires s.user.Some? && s.store.Some? && s.membership.Some?
    ensures !UpgradeShown(SM.UpgradeToPremium(s, true).state)
  {
  }
}
