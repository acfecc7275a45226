/** The purchase simulator dialog: it turns an amount and a comma-separated
    item list into a history entry and a token credit at the store's reward
    rate. The amount field's `parseFloat` result arrives as a parameter
    (`None` for NaN). */
module PurchaseSimulator {
  import opened Common
  import opened Text
  import PL = PurchaseLog
  import TB = TokenBalance

  /** The store fields the simulator reads; `rewardRate` is a percentage. */
  datatype Shop = Shop(id: string, rewardRate: real)

  /** `parseFloat(amount) || 0`. */
  function PurchaseAmount(parsed: Option<real>): (a: real)
    ensures parsed.None? ==> a == 0.0
    ensures parsed.Some? ==> a == parsed.value
  {
    if parsed.None? then 0.0 else parsed.value
  }

  /** `purchaseAmount * (rewardRate / 100)`. */
  function TokensToEarn(amount: real, rewardRate: real): (t: real)
    ensures t * 100.0 == amount * rewardRate
    ensures amount >= 0.0 && rewardRate >= 0.0 ==> t >= 0.0
  {
    amount * (rewardRate / 100.0)
  }

  /** A reward rate of 10% on a 100.00 purchase earns 10 tokens; an amount
      that does not parse earns nothing. */
  lemma RewardScenarios(rewardRate: real)
    ensures TokensToEarn(PurchaseAmount(Some(100.0)), 10.0) == 10.0
    ensures TokensToEarn(PurchaseAmount(None), rewardRate) == 0.0
  {
  }

  /** `pieces.map(item => item.trim())`. */
  function TrimAll(pieces: seq<string>): (r: seq<string>)
    ensures |r| == |pieces|
    ensures forall i :: 0 <= i < |r| ==> r[i] == Trim(pieces[i])
  {
    seq(|pieces|, i requires 0 <= i < |pieces| => Trim(pieces[i]))
  }

  /** The `.filter(item => item)` test: a string is kept when non-empty. */
  predicate IsNonEmpty(s: string)
  {
    |s| > 0
  }

  /** `items.split(',').map(item => item.trim()).filter(item => item)`. */
  function ParseItems(text: string): (items: seq<string>)
    ensures |items| <= CountOf(text, IsComma) + 1
    ensures forall i :: 0 <= i < |items| ==> |items[i]| > 0
  {
    Filter(TrimAll(SplitOnCommas(text)), IsNonEmpty)
  }

  /** Each parsed item is the trimmed form of one piece of the text. */
  lemma ParsedItemIsTrimmedPiece(text: string, item: string) returns (j: nat)
    requires item in ParseItems(text)
    ensures j < |SplitOnCommas(text)| && item == Trim(SplitOnCommas(text)[j])
  {
    var trimmed := TrimAll(SplitOnCommas(text));
    assert item in multiset(trimmed);
    j :| 0 <= j < |trimmed| && trimmed[j] == item;
  }

  /** Each parsed item is clean: no surrounding whitespace and no comma. */
  lemma ParsedItemsAreClean(text: string, item: string)
    requires item in ParseItems(text)
    ensures |item| > 0 && !IsWhitespace(item[0]) && !IsWhitespace(item[|item| - 1])
    ensures ',' !in item
  {
    var j := ParsedItemIsTrimmedPiece(text, item);
    var piece := SplitOnCommas(text)[j];
    if ',' in item {
      TrimKeepsCharacters(piece, ',');
    }
  }

  /** Nothing is lost: every piece that is not blank appears, trimmed. */
  lemma ParsedItemsAreComplete(text: string, piece: string)
    requires piece in SplitOnCommas(text) && !IsBlank(piece)
    ensures Trim(piece) in ParseItems(text)
  {
    var pieces := SplitOnCommas(text);
    var j :| 0 <= j < |pieces| && pieces[j] == piece;
    assert TrimAll(pieces)[j] == Trim(piece);
  }

  /** Items keep their input order: the list parsed from two comma-joined
      texts is the first text's list followed by the second's. */
  lemma ParseItemsAtComma(a: string, b: string)
    ensures ParseItems(a + "," + b) == ParseItems(a) + ParseItems(b)
  {
    SplitAtComma(a, b);
    var pa := SplitOnCommas(a);
    var pb := SplitOnCommas(b);
    TrimAllAppend(pa, pb);
    FilterAppend(TrimAll(pa), TrimAll(pb), IsNonEmpty);
  }

  lemma TrimAllAppend(xs: seq<string>, ys: seq<string>)
    ensures TrimAll(xs + ys) == TrimAll(xs) + TrimAll(ys)
  {
  }

  /** The guard: a purchase goes ahead when the amount is positive and the
      item text is not blank. */
  predicate Accepts(parsed: Option<real>, itemsText: string)
  {
    PurchaseAmount(parsed) > 0.0 && |Trim(itemsText)| > 0
  }

  datatype Result =
    | Ignored
    | Completed(history: PL.History, purchase: PL.Purchase, credited: real)

  /** `handlePurchase()`: on acceptance, one history entry and one call of
      `onTokensEarned` with the same token figure. */
  function HandlePurchase(shop: Shop, parsed: Option<real>, itemsText: string,
                          h: PL.History, id: string, date: string, hash: string): (r: Result)
    ensures r.Ignored? <==> PurchaseAmount(parsed) <= 0.0 || IsBlank(itemsText)
    ensures r.Completed? ==> parsed.Some? && parsed.value > 0.0 && r.purchase.amount == parsed.value
    ensures r.Completed? ==>
      && r.credited == r.purchase.tokensEarned
      && r.credited == TokensToEarn(PurchaseAmount(parsed), shop.rewardRate)
      && r.purchase.amount == PurchaseAmount(parsed)
      && r.purchase.storeId == shop.id
      && r.purchase.items == ParseItems(itemsText)
      && r.history.purchases == [r.purchase] + h.purchases
      && r.history.totalTokensEarned == h.totalTokensEarned + r.credited
      && r.history.totalSpent == h.totalSpent + r.purchase.amount
  {
    if !Accepts(parsed, itemsText) then Ignored
    else
      var amount := PurchaseAmount(parsed);
      var tokens := TokensToEarn(amount, shop.rewardRate);
      var added := PL.AddPurchase(h, PL.Draft(shop.id, amount, tokens, ParseItems(itemsText)), id, date, hash);
      Completed(added.0, added.1, tokens)
  }

  /** A simulated purchase keeps a consistent history consistent. */
  lemma HandlePurchaseKeepsConsistency(shop: Shop, parsed: Option<real>, itemsText: string,
                                       h: PL.History, id: string, date: string, hash: string)
    requires PL.Consistent(h)
    ensures
      var r := HandlePurchase(shop, parsed, itemsText, h, id, date, hash);
      r.Completed? ==> PL.Consistent(r.history)
  {
  }

  /** On the store page the credit goes to the balance hook: the wallet moves
      by exactly what the history's token total moves by, so the difference
      between the two is kept. */
  lemma CreditMatchesHistory(w: TB.Wallet, shop: Shop, parsed: Option<real>, itemsText: string,
                             h: PL.History, id: string, date: string, hash: string)
    requires Accepts(parsed, itemsText)
    ensures
      var r := HandlePurchase(shop, parsed, itemsText, h, id, date, hash);
      r.Completed? &&
      TB.PurchaseTokens(w, r.credited).balance - r.history.totalTokensEarned
        == w.balance - h.totalTokensEarned
  {
  }

  /** The guard does not promise any items: a lone comma is not blank, so a
      positive amount with the text "," records a purchase with no items. */
  lemma LoneCommaRecordsNoItems(shop: Shop, h: PL.History, id: string, date: string, hash: string)
    ensures HandlePurchase(shop, Some(10.0), ",", h, id, date, hash).Completed?
    ensures HandlePurchase(shop, Some(10.0), ",", h, id, date, hash).purchase.items == []
  {
    var text := ",";
    assert !IsBlank(text) by {
      assert !IsWhitespace(text[0]);
    }
    FirstCommaIsUnique(text, 0);
    assert text[1..] == "";
    assert ',' !in "";
    assert SplitOnCommas(text) == ["", ""];
    assert TrimAll(["", ""]) == ["", ""];
  }
}
