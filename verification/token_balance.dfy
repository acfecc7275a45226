/** The membership-free balance hook used on the store detail page: a single
    number per store, credited in place, with the same two threshold flags.
    The number is kept in browser storage under the store's key; the model
    carries that slot beside the hook. The random first balance drawn when
    nothing is saved arrives as a parameter. */
module TokenBalance {
  import opened Common

  /** The default of the hook's `minProposalTokens` argument. */
  const DefaultMinProposalTokens: real := 1000.0

  datatype Wallet = Wallet(balance: real, minProposalTokens: real)

  /** The store's storage slot: the saved balance, or nothing. */
  type Slot = Option<real>

  /** The hook's state: the wallet it exposes, its `loading` flag, and what
      the mount effect captured for its one-second timer (the first balance
      and whether storage held one). */
  datatype Hook = Hook(wallet: Wallet, loading: bool, pending: real, hadSaved: bool)

  /** The mount effect: the balance shows 0 while loading, and the first
      balance is taken from the slot or, when it is empty, from the draw. */
  function Mount(minProposalTokens: real, slot: Slot, draw: real): (h: Hook)
    ensures h.loading && h.wallet.balance == 0.0 && h.wallet.minProposalTokens == minProposalTokens
    ensures h.hadSaved <==> slot.Some?
    ensures h.pending == if slot.Some? then slot.value else draw
  {
    Hook(Wallet(0.0, minProposalTokens), true, if slot.Some? then slot.value else draw, slot.Some?)
  }

  /** The timer: the captured first balance replaces whatever the wallet
      shows, loading ends, and the slot is written only if it was empty at
      mount. */
  function Fire(h: Hook, slot: Slot): (r: (Hook, Slot))
    ensures !r.0.loading && r.0.wallet.balance == h.pending
    ensures r.0.wallet.minProposalTokens == h.wallet.minProposalTokens
    ensures h.hadSaved ==> r.1 == slot
    ensures !h.hadSaved ==> r.1 == Some(h.pending)
  {
    (h.(wallet := h.wallet.(balance := h.pending), loading := false),
     if h.hadSaved then slot else Some(h.pending))
  }

  /** The storage slot holds the balance on screen. */
  predicate Synced(h: Hook, slot: Slot)
  {
    slot == Some(h.wallet.balance)
  }

  /** Mount followed by the timer: a saved balance is restored, an empty
      slot is filled with the draw, and either way the slot then holds the
      balance on screen. */
  function Load(minProposalTokens: real, slot: Slot, draw: real): (r: (Hook, Slot))
    ensures !r.0.loading && r.0.wallet.minProposalTokens == minProposalTokens
    ensures Synced(r.0, r.1)
    ensures slot.Some? ==> r.0.wallet.balance == slot.value && r.1 == slot
    ensures slot.None? ==> r.0.wallet.balance == draw && r.1 == Some(draw)
  {
    Fire(Mount(minProposalTokens, slot, draw), slot)
  }

  /** `purchaseTokens(amount)`: no check on `amount`. */
  function PurchaseTokens(w: Wallet, amount: real): (r: Wallet)
    ensures r.balance - w.balance == amount
    ensures r.minProposalTokens == w.minProposalTokens
  {
    w.(balance := w.balance + amount)
  }

  predicate CanVote(w: Wallet)
  {
    w.balance > 0.0
  }

  predicate CanCreateProposal(w: Wallet)
  {
    w.balance >= w.minProposalTokens
  }

  /** With a positive threshold, proposal rights imply voting rights. */
  lemma ProposalRightImpliesVote(w: Wallet)
    requires w.minProposalTokens > 0.0
    ensures CanCreateProposal(w) ==> CanVote(w)
  {
  }

  /** Without a positive threshold the implication fails: an empty wallet may
      propose but not vote. */
  lemma ZeroThresholdSeparatesRights()
    ensures CanCreateProposal(Wallet(0.0, 0.0)) && !CanVote(Wallet(0.0, 0.0))
  {
  }

  /** A non-negative credit never revokes a right; a credit that reaches the
      threshold grants proposal rights. */
  lemma CreditIsMonotone(w: Wallet, amount: real)
    requires amount >= 0.0
    ensures CanVote(w) ==> CanVote(PurchaseTokens(w, amount))
    ensures CanCreateProposal(w) ==> CanCreateProposal(PurchaseTokens(w, amount))
    ensures w.balance + amount >= w.minProposalTokens ==> CanCreateProposal(PurchaseTokens(w, amount))
  {
  }

  /** With the default threshold: a saved 999 does not reach it, 50 more do. */
  lemma ThresholdScenario(draw: real)
    ensures !CanCreateProposal(Load(DefaultMinProposalTokens, Some(999.0), draw).0.wallet)
    ensures CanCreateProposal(PurchaseTokens(Load(DefaultMinProposalTokens, Some(999.0), draw).0.wallet, 50.0))
    ensures PurchaseTokens(Load(DefaultMinProposalTokens, Some(999.0), draw).0.wallet, 50.0).balance == 1049.0
  {
  }

  /** `purchaseTokens(amount)` on the hook: the wallet is credited and the
      new balance is written to the slot. */
  function Credit(h: Hook, slot: Slot, amount: real): (r: (Hook, Slot))
    ensures r.0.wallet == PurchaseTokens(h.wallet, amount)
    ensures r.0.loading == h.loading && r.0.pending == h.pending && r.0.hadSaved == h.hadSaved
    ensures Synced(r.0, r.1)
  {
    var w := PurchaseTokens(h.wallet, amount);
    (h.(wallet := w), Some(w.balance))
  }

  function CreditAll(h: Hook, slot: Slot, amounts: seq<real>): (Hook, Slot)
    decreases |amounts|
  {
    if |amounts| == 0 then (h, slot)
    else
      var next := Credit(h, slot, amounts[0]);
      CreditAll(next.0, next.1, amounts[1..])
  }

  /** Once loaded, credits keep the slot in step with the balance, so a
      reload (a fresh mount with whatever draw) shows the balance the page
      last showed. */
  lemma {:induction false} ReloadRestoresBalance(minProposalTokens: real, slot: Slot, draw: real,
                                                amounts: seq<real>, redraw: real)
    ensures
      var loaded := Load(minProposalTokens, slot, draw);
      var after := CreditAll(loaded.0, loaded.1, amounts);
      Load(minProposalTokens, after.1, redraw).0.wallet.balance == after.0.wallet.balance
  {
    var loaded := Load(minProposalTokens, slot, draw);
    CreditsKeepSynced(loaded.0, loaded.1, amounts);
  }

  lemma {:induction false} CreditsKeepSynced(h: Hook, slot: Slot, amounts: seq<real>)
    requires Synced(h, slot)
    ensures Synced(CreditAll(h, slot, amounts).0, CreditAll(h, slot, amounts).1)
    decreases |amounts|
  {
    if |amounts| > 0 {
      var next := Credit(h, slot, amounts[0]);
      CreditsKeepSynced(next.0, next.1, amounts[1..]);
    }
  }

  /** A credit made in the second before the timer fires is lost from the
      screen. With an empty slot the draw overwrites both the balance and
      the slot. With a saved balance the screen shows the saved value, but
      the credit was added to the 0 shown while loading, so the slot holds
      the amount alone and the next reload loses the saved balance. */
  lemma CreditBeforeLoadIsOverwritten(minProposalTokens: real, slot: Slot, draw: real, amount: real)
    ensures
      var m := Mount(minProposalTokens, slot, draw);
      var c := Credit(m, slot, amount);
      var f := Fire(c.0, c.1);
      && f.0.wallet.balance == (if slot.Some? then slot.value else draw)
      && (slot.None? ==> f.1 == Some(draw))
      && (slot.Some? ==> f.1 == Some(amount))
  {
  }
}

/** The two hooks decide eligibility independently; for an active member whose
    balance is mirrored in a wallet with the default threshold they agree. */
module Eligibility {
  import SM = StoreMembership
  import TB = TokenBalance

  function WalletOf(m: SM.Membership): (w: TB.Wallet)
    ensures w.balance == m.tokenBalance && w.minProposalTokens == TB.DefaultMinProposalTokens
  {
    TB.Wallet(m.tokenBalance, TB.DefaultMinProposalTokens)
  }

  lemma ActiveMemberRulesAgree(s: SM.HookState)
    requires SM.IsMember(s)
    ensures SM.CanVote(s) <==> TB.CanVote(WalletOf(s.membership.value))
    ensures SM.CanCreateProposal(s) <==> TB.CanCreateProposal(WalletOf(s.membership.value))
  {
  }

  /** For an inactive or missing membership the rules part ways: the
      membership hook grants nothing, whatever the balance. */
  lemma InactiveMemberHasNoRights(s: SM.HookState)
    requires !SM.IsMember(s)
    ensures !SM.CanVote(s) && !SM.CanCreateProposal(s)
  {
  }

  /** Crediting both ledgers with the same amount keeps them agreeing. */
  lemma CreditKeepsAgreement(s: SM.HookState, amount: real)
    requires SM.IsMember(s)
    ensures SM.PurchaseTokens(s, amount, true).state.membership.Some?
    ensures WalletOf(SM.PurchaseTokens(s, amount, true).state.membership.value)
      == TB.PurchaseTokens(WalletOf(s.membership.value), amount)
  {
  }
}
