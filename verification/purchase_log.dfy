/** The browser-stored purchase history of one store: a newest-first list of
    simulated purchases and two running totals kept beside it. The fresh id,
    date and transaction hash of a new entry (clock and random draws in the
    hook) arrive as parameters. */
module PurchaseLog {
  import opened Common

  datatype Purchase = Purchase(
    id: string,
    storeId: string,
    amount: real,
    tokensEarned: real,
    date: string,
    items: seq<string>,
    transactionHash: Option<string>)

  /** What a caller hands to `addPurchase`: a purchase without id, date or hash. */
  datatype Draft = Draft(storeId: string, amount: real, tokensEarned: real, items: seq<string>)

  datatype History = History(purchases: seq<Purchase>, totalSpent: real, totalTokensEarned: real)

  function AmountOf(p: Purchase): real { p.amount }

  function TokensOf(p: Purchase): real { p.tokensEarned }

  /** The totals are the sums over the list. */
  predicate Consistent(h: History)
  {
    && h.totalSpent == SumOf(h.purchases, AmountOf)
    && h.totalTokensEarned == SumOf(h.purchases, TokensOf)
  }

  /** The hook's value before storage has been read. */
  function Empty(): (h: History)
    ensures h.purchases == [] && Consistent(h)
  {
    History([], 0.0, 0.0)
  }

  /** The two sample purchases written when storage holds nothing. */
  function SeedPurchases(storeId: string): seq<Purchase>
  {
    [ Purchase("1", storeId, 125.50, 62.75, "2024-01-15", ["Premium Coffee Blend", "Coffee Mug"], Some("0x123...abc")),
      Purchase("2", storeId, 89.99, 44.99, "2024-01-10", ["Espresso Machine Accessories"], Some("0x456...def")) ]
  }

  /** The seeded history, totals computed by summing the sample list. */
  function Seed(storeId: string): History
  {
    var ps := SeedPurchases(storeId);
    History(ps, SumOf(ps, AmountOf), SumOf(ps, TokensOf))
  }

  /** The seeded totals, in exact decimal arithmetic. */
  lemma SeedTotals(storeId: string)
    ensures Consistent(Seed(storeId))
    ensures Seed(storeId).totalSpent == 215.49
    ensures Seed(storeId).totalTokensEarned == 107.74
    ensures |Seed(storeId).purchases| == 2
  {
    var ps := SeedPurchases(storeId);
    var first := ps[..1];
    assert first[..0] == [];
    assert SumOf(first, AmountOf) == 125.50 && SumOf(first, TokensOf) == 62.75;
    assert ps[..|ps| - 1] == first;
    assert SumOf(ps, AmountOf) == SumOf(first, AmountOf) + 89.99;
    assert SumOf(ps, TokensOf) == SumOf(first, TokensOf) + 44.99;
  }

  /** The mount effect: the history the hook shows and what the store's
      storage slot holds afterwards. A saved history is shown as it is and
      the slot is left alone; an empty slot gets the seed, which is shown.
      Either way the slot then holds the history on screen, and a history
      that did not come from storage is consistent. */
  function Load(saved: Option<History>, storeId: string): (r: (History, Option<History>))
    ensures r.1 == Some(r.0)
    ensures saved.Some? ==> r.1 == saved
    ensures saved.None? ==> Consistent(r.0) && |r.0.purchases| == 2 && r.0.totalSpent == 215.49
    ensures forall i :: saved.None? && 0 <= i < |r.0.purchases| ==> r.0.purchases[i].storeId == storeId
  {
    if saved.Some? then (saved.value, saved)
    else
      SeedTotals(storeId);
      (Seed(storeId), Some(Seed(storeId)))
  }


  /** `addPurchase(draft)`: the entry built from the draft and the fresh
      values, prepended, with both totals advanced by its figures; the new
      history is written to the slot. */
  function AddPurchase(h: History, d: Draft, id: string, date: string, hash: string)
    : (r: (History, Purchase, Option<History>))
    ensures r.2 == Some(r.0)
    ensures r.1 == Purchase(id, d.storeId, d.amount, d.tokensEarned, date, d.items, Some(hash))
    ensures r.0.purchases == [r.1] + h.purchases
    ensures r.0.totalSpent == h.totalSpent + d.amount
    ensures r.0.totalTokensEarned == h.totalTokensEarned + d.tokensEarned
    ensures Consistent(h) ==> Consistent(r.0)
  {
    var p := Purchase(id, d.storeId, d.amount, d.tokensEarned, date, d.items, Some(hash));
    SumOfCons(p, h.purchases, AmountOf);
    SumOfCons(p, h.purchases, TokensOf);
    var next := History([p] + h.purchases, h.totalSpent + p.amount, h.totalTokensEarned + p.tokensEarned);
    (next, p, Some(next))
  }

  /** An addition, with the fresh values it is given. */
  datatype Addition = Addition(draft: Draft, id: string, date: string, hash: string)

  /** A run of additions from a history and its slot: the history shown
      and the slot left at the end. */
  function AddAll(h: History, slot: Option<History>, adds: seq<Addition>): (History, Option<History>)
    decreases |adds|
  {
    if |adds| == 0 then (h, slot)
    else
      var r := AddPurchase(h, adds[0].draft, adds[0].id, adds[0].date, adds[0].hash);
      AddAll(r.0, r.2, adds[1..])
  }

  /** Additions to a consistent history (the empty value, the seed, or a
      consistent saved one) keep it consistent; each adds one entry in front
      and the older entries follow unchanged. */
  lemma {:induction false} AdditionsKeepTotals(h: History, slot: Option<History>, adds: seq<Addition>)
    requires Consistent(h)
    ensures Consistent(AddAll(h, slot, adds).0)
    ensures |AddAll(h, slot, adds).0.purchases| == |h.purchases| + |adds|
    ensures AddAll(h, slot, adds).0.purchases[|adds|..] == h.purchases
    decreases |adds|
  {
    if |adds| > 0 {
      var r := AddPurchase(h, adds[0].draft, adds[0].id, adds[0].date, adds[0].hash);
      var next := r.0;
      AdditionsKeepTotals(next, r.2, adds[1..]);
      assert next.purchases[1..] == h.purchases;
      var final := AddAll(h, slot, adds).0;
      assert final.purchases[|adds|..] == final.purchases[|adds| - 1..][1..];
    }
  }

  /** Once the slot holds the history on screen, every addition keeps it so. */
  lemma {:induction false} AdditionsKeepSlot(h: History, slot: Option<History>, adds: seq<Addition>)
    requires slot == Some(h)
    ensures AddAll(h, slot, adds).1 == Some(AddAll(h, slot, adds).0)
    decreases |adds|
  {
    if |adds| > 0 {
      var r := AddPurchase(h, adds[0].draft, adds[0].id, adds[0].date, adds[0].hash);
      AdditionsKeepSlot(r.0, r.2, adds[1..]);
    }
  }

  /** Loading twice is loading once, and after a load and any run of
      additions a reload from the slot they leave shows the history the
      page last showed. */
  lemma ReloadShowsLastHistory(saved: Option<History>, storeId: string, adds: seq<Addition>)
    ensures
      var loaded := Load(saved, storeId);
      var after := AddAll(loaded.0, loaded.1, adds);
      && Load(loaded.1, storeId) == loaded
      && Load(after.1, storeId).0 == after.0
  {
    var loaded := Load(saved, storeId);
    AdditionsKeepSlot(loaded.0, loaded.1, adds);
  }

  /** Storage is trusted as it is: a saved history whose totals disagree with
      its list is loaded unchanged and stays inconsistent after an addition. */
  lemma InconsistentSaveSurvives(h: History, d: Draft, id: string, date: string, hash: string)
    requires !Consistent(h)
    ensures !Consistent(Load(Some(h), d.storeId).0)
    ensures !Consistent(AddPurchase(Load(Some(h), d.storeId).0, d, id, date, hash).0)
  {
    var p := Purchase(id, d.storeId, d.amount, d.tokensEarned, date, d.items, Some(hash));
    SumOfCons(p, h.purchases, AmountOf);
    SumOfCons(p, h.purchases, TokensOf);
  }
}
