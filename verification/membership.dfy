/** The per-(user, store) membership hook: joining a store community,
    upgrading to premium, crediting tokens, and the capability flags the
    governance page derives from the loaded membership row.

    A `null` `token_balance` or `is_active` behaves in every expression the
    hook evaluates exactly like `0` or `false` (`null + a` is `a`, `null > 0`
    is false, `!!null` is false), so the row keeps a plain `real` and `bool`. */
module StoreMembership {
  import opened Common

  datatype Tier = Basic | Premium

  /** The `stores` columns the hook reads. */
  datatype StoreInfo = StoreInfo(
    id: string,
    name: string,
    tokenSymbol: string,
    membershipFeeTokens: real,
    hasPremiumMembership: bool,
    premiumFeeTokens: real)

  /** One `store_memberships` row, as the hook holds it. */
  datatype Membership = Membership(
    id: string,
    storeId: string,
    tier: Tier,
    tokenBalance: real,
    isActive: bool,
    joinedAt: string)

  /** What one instance of the hook holds: the store id it was created for,
      the signed-in user, and the store and membership rows it loaded. */
  datatype HookState = HookState(
    storeId: string,
    user: Option<string>,
    store: Option<StoreInfo>,
    membership: Option<Membership>)

  /** The three guard failures, and a write the backend rejected. */
  datatype Failure = NotSignedInOrNoStore | InvalidState | NoMembership | BackendRejected

  datatype Outcome = Success | Fail(failure: Failure)

  /** The hook's state after an operation, with the `{ success, error }` it returned. */
  datatype Step = Step(state: HookState, outcome: Outcome)

  /** The fee the join handler computes for the requested tier. */
  function RequiredTokens(store: StoreInfo, tier: Tier): real
  {
    if tier == Premium then store.premiumFeeTokens else store.membershipFeeTokens
  }

  /** `joinStore(tier)`. The row id, join time and the table's default for
      `is_active` are chosen by the backend and arrive as parameters;
      `backendOk` is false when the insert is rejected. The computed fee is
      never compared with a balance nor debited. */
  function JoinStore(s: HookState, tier: Tier, rowId: string, joinedAt: string,
                     activeByDefault: bool, backendOk: bool): (r: Step)
    ensures r.outcome == Success <==> s.user.Some? && s.store.Some? && backendOk
    ensures (s.user.None? || s.store.None?) ==> r == Step(s, Fail(NotSignedInOrNoStore))
    ensures r.outcome != Success ==> r.state == s
    ensures r.outcome == Success ==>
      && r.state.membership == Some(Membership(rowId, s.storeId, tier, 0.0, activeByDefault, joinedAt))
      && r.state.user == s.user && r.state.store == s.store && r.state.storeId == s.storeId
  {
    if s.user.None? || s.store.None? then Step(s, Fail(NotSignedInOrNoStore))
    else
      var fee := RequiredTokens(s.store.value, tier);
      if !backendOk then Step(s, Fail(BackendRejected))
      else
        var row := Membership(rowId, s.storeId, tier, 0.0, activeByDefault, joinedAt);
        Step(s.(membership := Some(row)), Success)
  }

  /** `upgradeToPremium()`: sets only `membership_type` on the existing row. */
  function UpgradeToPremium(s: HookState, backendOk: bool): (r: Step)
    ensures r.outcome == Success <==>
      s.user.Some? && s.store.Some? && s.membership.Some? && backendOk
    ensures (s.user.None? || s.store.None? || s.membership.None?) ==> r == Step(s, Fail(InvalidState))
    ensures r.outcome != Success ==> r.state == s
    ensures r.outcome == Success ==>
      && r.state.membership.Some?
      && r.state.membership.value.tier == Premium
      && r.state.membership.value.tokenBalance == s.membership.value.tokenBalance
      && r.state.membership.value.isActive == s.membership.value.isActive
      && r.state.membership.value.id == s.membership.value.id
      && r.state.membership.value.storeId == s.membership.value.storeId
      && r.state.membership.value.joinedAt == s.membership.value.joinedAt
      && r.state.user == s.user && r.state.store == s.store && r.state.storeId == s.storeId
  {
    if s.user.None? || s.store.None? || s.membership.None? then Step(s, Fail(InvalidState))
    else if !backendOk then Step(s, Fail(BackendRejected))
    else Step(s.(membership := Some(s.membership.value.(tier := Premium))), Success)
  }

  /** `purchaseTokens(amount)`: writes `old balance + amount` to the row.
      Neither the sign of `amount` nor a signed-in user is checked. */
  function PurchaseTokens(s: HookState, amount: real, backendOk: bool): (r: Step)
    ensures r.outcome == Success <==> s.membership.Some? && backendOk
    ensures s.membership.None? ==> r == Step(s, Fail(NoMembership))
    ensures r.outcome != Success ==> r.state == s
    ensures r.outcome == Success ==>
      && r.state.membership.Some?
      && r.state.membership.value.tokenBalance == s.membership.value.tokenBalance + amount
      && r.state.membership.value.(tokenBalance := s.membership.value.tokenBalance) == s.membership.value
      && r.state.user == s.user && r.state.store == s.store && r.state.storeId == s.storeId
  {
    if s.membership.None? then Step(s, Fail(NoMembership))
    else
      var m := s.membership.value;
      var newBalance := m.tokenBalance + amount;
      if !backendOk then Step(s, Fail(BackendRejected))
      else Step(s.(membership := Some(m.(tokenBalance := newBalance))), Success)
  }

  /** The threshold the hook hard-codes for creating proposals. */
  const ProposalThreshold: real := 1000.0

  predicate CanVote(s: HookState)
  {
    s.membership.Some? && s.membership.value.isActive && s.membership.value.tokenBalance > 0.0
  }

  predicate CanCreateProposal(s: HookState)
  {
    s.membership.Some? && s.membership.value.isActive && s.membership.value.tokenBalance >= ProposalThreshold
  }

  predicate IsMember(s: HookState)
  {
    s.membership.Some? && s.membership.value.isActive
  }

  predicate IsPremium(s: HookState)
  {
    s.membership.Some? && s.membership.value.tier == Premium
  }

  /** Proposal rights imply voting rights, which imply active membership. */
  lemma CapabilityChain(s: HookState)
    ensures CanCreateProposal(s) ==> CanVote(s)
    ensures CanVote(s) ==> IsMember(s)
  {
  }

  /** A successful join leaves a member with nothing to vote with, whatever
      fee the tier carries and whatever balance an earlier row held. */
  lemma JoinedMemberCannotVote(s: HookState, tier: Tier, rowId: string, joinedAt: string, active: bool)
    requires s.user.Some? && s.store.Some?
    ensures JoinStore(s, tier, rowId, joinedAt, active, true).outcome == Success
    ensures !CanVote(JoinStore(s, tier, rowId, joinedAt, active, true).state)
    ensures IsMember(JoinStore(s, tier, rowId, joinedAt, active, true).state) == active
    ensures IsPremium(JoinStore(s, tier, rowId, joinedAt, active, true).state) <==> tier == Premium
  {
  }

  /** The fees are never consulted: two stores that differ only in their fee
      columns give the same membership row. */
  lemma JoinIgnoresFees(s: HookState, basicFee: real, premiumFee: real, tier: Tier,
                        rowId: string, joinedAt: string, active: bool, backendOk: bool)
    requires s.store.Some?
    ensures
      var cheap := s.(store := Some(s.store.value.(membershipFeeTokens := basicFee, premiumFeeTokens := premiumFee)));
      JoinStore(cheap, tier, rowId, joinedAt, active, backendOk).state.membership
        == JoinStore(s, tier, rowId, joinedAt, active, backendOk).state.membership
      && JoinStore(cheap, tier, rowId, joinedAt, active, backendOk).outcome
        == JoinStore(s, tier, rowId, joinedAt, active, backendOk).outcome
  {
  }

  /** After a successful upgrade the member is premium, and the capability
      flags are exactly those held before. */
  lemma UpgradeMakesPremium(s: HookState)
    requires s.user.Some? && s.store.Some? && s.membership.Some?
    ensures IsPremium(UpgradeToPremium(s, true).state)
    ensures CanVote(UpgradeToPremium(s, true).state) == CanVote(s)
    ensures CanCreateProposal(UpgradeToPremium(s, true).state) == CanCreateProposal(s)
    ensures IsMember(UpgradeToPremium(s, true).state) == IsMember(s)
  {
  }

  /** A non-negative credit never revokes a capability. */
  lemma CreditKeepsCapabilities(s: HookState, amount: real, backendOk: bool)
    requires amount >= 0.0
    ensures CanVote(s) ==> CanVote(PurchaseTokens(s, amount, backendOk).state)
    ensures CanCreateProposal(s) ==> CanCreateProposal(PurchaseTokens(s, amount, backendOk).state)
    ensures IsMember(PurchaseTokens(s, amount, backendOk).state) == IsMember(s)
    ensures IsPremium(PurchaseTokens(s, amount, backendOk).state) == IsPremium(s)
  {
  }

  /** Applies the credits in order, each one accepted by the backend. */
  function CreditAll(s: HookState, amounts: seq<real>): HookState
    decreases |amounts|
  {
    if |amounts| == 0 then s
    else CreditAll(PurchaseTokens(s, amounts[0], true).state, amounts[1..])
  }

  function Total(amounts: seq<real>): real
    decreases |amounts|
  {
    if |amounts| == 0 then 0.0 else amounts[0] + Total(amounts[1..])
  }

  /** Sequential credits add up: the balance moves by the sum of the amounts
      and nothing else about the row changes. */
  lemma {:induction false} CreditAllAddsTotal(s: HookState, amounts: seq<real>)
    requires s.membership.Some?
    ensures CreditAll(s, amounts).membership.Some?
    ensures CreditAll(s, amounts).membership.value.tokenBalance
      == s.membership.value.tokenBalance + Total(amounts)
    ensures CreditAll(s, amounts).membership.value.(tokenBalance := s.membership.value.tokenBalance)
      == s.membership.value
    decreases |amounts|
  {
    if |amounts| > 0 {
      CreditAllAddsTotal(PurchaseTokens(s, amounts[0], true).state, amounts[1..]);
    }
  }
}
