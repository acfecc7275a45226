/** The product purchase dialog: the quantity picker bounded by the stock, the
    price and token totals, and the purchase handler that writes one
    `purchases` row and the decremented stock. The two backend calls'
    outcomes (`insertOk`, `updateOk`) are parameters; the dialog's `isOpen`
    belongs to its parent and `onClose` clears it. */
module PurchaseDialog {
  import opened Common

  datatype Product = Product(id: string, name: string, price: real, stockQuantity: int, daoTokensPerPurchase: real)

  /** The dialog's local state, with the parent's open flag. */
  datatype Dialog = Dialog(open: bool, quantity: int, loading: bool, complete: bool)

  /** A `purchases` row as the dialog inserts it. */
  datatype PurchaseRow = PurchaseRow(
    userId: string,
    storeId: string,
    productId: string,
    quantity: int,
    totalPrice: real,
    status: string)

  /** The two tables the handler touches: the purchase rows and the stock per product id. */
  datatype Backend = Backend(purchases: seq<PurchaseRow>, stock: map<string, int>)

  const CompletedStatus: string := "completed"

  /** The dialog as it opens: one item, nothing in progress. */
  function Opened(): (d: Dialog)
    ensures d.open && d.quantity == 1 && !d.loading && !d.complete
  {
    Dialog(true, 1, false, false)
  }

  /** The quantity picker's invariant. */
  predicate QuantityInRange(d: Dialog, p: Product)
  {
    1 <= d.quantity <= p.stockQuantity
  }

  /** `totalPrice`. */
  function TotalPrice(p: Product, quantity: int): (t: real)
    ensures quantity == 1 ==> t == p.price
    ensures p.price >= 0.0 && quantity >= 0 ==> t >= 0.0
  {
    p.price * quantity as real
  }

  /** `totalTokens`. */
  function TotalTokens(p: Product, quantity: int): (t: real)
    ensures quantity == 1 ==> t == p.daoTokensPerPurchase
    ensures p.daoTokensPerPurchase >= 0.0 && quantity >= 0 ==> t >= 0.0
  {
    p.daoTokensPerPurchase * quantity as real
  }

  /** `handleQuantityChange(value)`, given `parseInt(value)` (`None` for NaN):
      a value in 1..stock is taken, anything else is ignored. */
  function HandleQuantityChange(d: Dialog, p: Product, parsed: Option<int>): (r: Dialog)
    ensures r.open == d.open && r.loading == d.loading && r.complete == d.complete
    ensures r.quantity != d.quantity ==> parsed.Some? && r.quantity == parsed.value
    ensures r.quantity == d.quantity || 0 < r.quantity <= p.stockQuantity
    ensures parsed.Some? && 0 < parsed.value <= p.stockQuantity ==> r.quantity == parsed.value
  {
    if parsed.Some? && parsed.value > 0 && parsed.value <= p.stockQuantity then d.(quantity := parsed.value)
    else d
  }

  /** Whether the "-" button is disabled. */
  predicate DecrementDisabled(d: Dialog)
  {
    d.quantity <= 1
  }

  /** Whether the "+" button is disabled. */
  predicate IncrementDisabled(d: Dialog, p: Product)
  {
    d.quantity >= p.stockQuantity
  }

  /** The "-" button: when enabled it feeds `quantity - 1` through the change handler. */
  function Decrement(d: Dialog, p: Product): (r: Dialog)
    ensures DecrementDisabled(d) ==> r == d
    ensures !DecrementDisabled(d) && d.quantity <= p.stockQuantity + 1 ==> r == d.(quantity := d.quantity - 1)
  {
    if DecrementDisabled(d) then d else HandleQuantityChange(d, p, Some(d.quantity - 1))
  }

  /** The "+" button: when enabled it feeds `quantity + 1` through the change handler. */
  function Increment(d: Dialog, p: Product): (r: Dialog)
    ensures IncrementDisabled(d, p) ==> r == d
    ensures !IncrementDisabled(d, p) && d.quantity >= 0 ==> r == d.(quantity := d.quantity + 1)
  {
    if IncrementDisabled(d, p) then d else HandleQuantityChange(d, p, Some(d.quantity + 1))
  }

  /** Every way of changing the quantity keeps it within 1..stock. */
  lemma QuantityStaysInRange(d: Dialog, p: Product, parsed: Option<int>)
    requires QuantityInRange(d, p)
    ensures QuantityInRange(HandleQuantityChange(d, p, parsed), p)
    ensures QuantityInRange(Decrement(d, p), p)
    ensures QuantityInRange(Increment(d, p), p)
  {
  }

  /** The dialog opens within range whenever the product is in stock (the
      product grid offers no purchase for a product with no stock). */
  lemma OpenedInRange(p: Product)
    requires p.stockQuantity >= 1
    ensures QuantityInRange(Opened(), p)
  {
  }

  /** One "+" adds one unit price and one unit's tokens to the totals. */
  lemma IncrementAddsOneUnit(d: Dialog, p: Product)
    requires QuantityInRange(d, p) && !IncrementDisabled(d, p)
    ensures TotalPrice(p, Increment(d, p).quantity) == TotalPrice(p, d.quantity) + p.price
    ensures TotalTokens(p, Increment(d, p).quantity) == TotalTokens(p, d.quantity) + p.daoTokensPerPurchase
  {
  }

  /** "+" then "-" returns to the same quantity while "+" is enabled. */
  lemma IncrementThenDecrement(d: Dialog, p: Product)
    requires QuantityInRange(d, p) && !IncrementDisabled(d, p)
    ensures Decrement(Increment(d, p), p) == d
  {
  }

  /** The dialog while the two requests are in flight. */
  function InFlight(d: Dialog): (r: Dialog)
    ensures r.loading && r.quantity == d.quantity && r.open == d.open && r.complete == d.complete
  {
    d.(loading := true)
  }

  /** `handlePurchase()` from the submit to the `finally`: without a user
      nothing happens; otherwise a completed row at `totalPrice` is inserted,
      then, only if that insert succeeded, the product's stock is updated to
      the stock the dialog was opened with minus the quantity. A failed
      update writes nothing, and one that matches no product id changes
      nothing. The dialog becomes complete only when both calls succeeded,
      and nothing here clears the flag. */
  function HandlePurchase(d: Dialog, p: Product, user: Option<string>, storeId: string,
                          b: Backend, insertOk: bool, updateOk: bool): (r: (Dialog, Backend))
    ensures user.None? ==> r == (d, b)
    ensures user.Some? ==> !r.0.loading && r.0.quantity == d.quantity && r.0.open == d.open
    ensures user.Some? ==> (r.0.complete <==> d.complete || (insertOk && updateOk))
    ensures user.Some? && !insertOk ==> r.0 == d.(loading := false) && r.1 == b
    ensures r.1.stock.Keys == b.stock.Keys
    ensures user.Some? && insertOk ==>
      r.1.purchases == b.purchases
        + [PurchaseRow(user.value, storeId, p.id, d.quantity, TotalPrice(p, d.quantity), CompletedStatus)]
    ensures user.Some? && insertOk && updateOk ==>
      && (p.id in b.stock ==> r.1.stock[p.id] == p.stockQuantity - d.quantity)
      && (forall k :: k in b.stock && k != p.id ==> r.1.stock[k] == b.stock[k])
    ensures user.Some? && insertOk && !updateOk ==> r.1.stock == b.stock
  {
    if user.None? then (d, b)
    else if !insertOk then (d.(loading := false), b)
    else
      var row := PurchaseRow(user.value, storeId, p.id, d.quantity, TotalPrice(p, d.quantity), CompletedStatus);
      var stock := if updateOk && p.id in b.stock then b.stock[p.id := p.stockQuantity - d.quantity] else b.stock;
      (d.(loading := false, complete := d.complete || updateOk), Backend(b.purchases + [row], stock))
  }

  /** A purchase within the picker's bounds, whose two writes both succeed,
      never writes a negative stock and always lowers it. */
  lemma StockStaysNonNegative(d: Dialog, p: Product, user: string, storeId: string, b: Backend)
    requires QuantityInRange(d, p) && p.id in b.stock
    ensures HandlePurchase(d, p, Some(user), storeId, b, true, true).1.stock[p.id] >= 0
    ensures HandlePurchase(d, p, Some(user), storeId, b, true, true).1.stock[p.id] < p.stockQuantity
  {
  }

  /** A failed stock update leaves the inserted row in place while the stock
      stays as it was: the two writes are not atomic. */
  lemma FailedUpdateKeepsRow(d: Dialog, p: Product, user: string, storeId: string, b: Backend)
    ensures
      var r := HandlePurchase(d, p, Some(user), storeId, b, true, false);
      && |r.1.purchases| == |b.purchases| + 1
      && r.1.stock == b.stock
      && r.0.complete == d.complete
  {
  }

  /** `handleClose()`: closes the dialog and resets the quantity, but only
      when no purchase is in flight or just completed. */
  function HandleClose(d: Dialog): (r: Dialog)
    ensures d.loading || d.complete ==> r == d
    ensures !d.loading && !d.complete ==> !r.open && r.quantity == 1 && !r.loading && !r.complete
  {
    if !d.loading && !d.complete then d.(open := false, quantity := 1, complete := false) else d
  }

  /** What the two-second timer does after a completed purchase. */
  function AfterSuccess(d: Dialog): (r: Dialog)
    ensures !r.open && !r.complete && r.quantity == 1 && r.loading == d.loading
  {
    d.(open := false, complete := false, quantity := 1)
  }

  /** Closing is refused while the requests are in flight and while the
      success screen shows; the success timer ends in the same closed state
      as a close from the idle dialog. */
  lemma CloseIsGated(d: Dialog, p: Product, user: string, storeId: string, b: Backend)
    ensures HandleClose(InFlight(d)) == InFlight(d)
    ensures
      var done := HandlePurchase(d, p, Some(user), storeId, b, true, true).0;
      HandleClose(done) == done && AfterSuccess(done) == HandleClose(done.(complete := false))
  {
  }

  /** Closing and the success timer both leave a dialog that reopens in range. */
  lemma ClosedDialogInRange(d: Dialog, p: Product)
    requires p.stockQuantity >= 1
    ensures QuantityInRange(HandleClose(d), p) || HandleClose(d) == d
    ensures QuantityInRange(AfterSuccess(d), p)
  {
  }
}
