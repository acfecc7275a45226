/** The store page's purchase history card: the user's ten newest purchases
    at one store, three stats over them, and a status badge per row. The
    purchase table is abstract and already in the backend's newest-first
    order; the query's success is a parameter. */
module PurchaseHistoryView {
  import opened Common

  /** A `purchases` row as the card reads it. */
  datatype Row = Row(
    id: string,
    userId: string,
    storeId: string,
    productId: string,
    quantity: int,
    totalPrice: real,
    tokensEarned: real,
    status: string,
    purchaseDate: string)

  datatype Stats = Stats(totalPurchases: int, totalSpent: real, totalTokensEarned: real)

  datatype Card = Card(loading: bool, purchases: seq<Row>, stats: Stats)

  const HistoryLimit: nat := 10

  /** Before the first fetch: loading, no rows, all stats 0. */
  function Initial(): (c: Card)
    ensures c.loading && c.purchases == [] && c.stats == Stats(0, 0.0, 0.0)
  {
    Card(true, [], Stats(0, 0.0, 0.0))
  }

  function PriceOf(r: Row): real { r.totalPrice }

  function TokensOf(r: Row): real { r.tokensEarned }

  /** All of the user's rows at this store, newest first. */
  function Mine(rows: seq<Row>, userId: string, storeId: string): (r: seq<Row>)
    ensures forall i :: 0 <= i < |r| ==> r[i].userId == userId && r[i].storeId == storeId
    ensures forall x :: x in rows && x.userId == userId && x.storeId == storeId ==> x in r
    ensures multiset(r) <= multiset(rows)
  {
    Filter(rows, (x: Row) => x.userId == userId && x.storeId == storeId)
  }

  /** The query: the user's rows at this store, newest first, at most ten. */
  function Query(rows: seq<Row>, userId: string, storeId: string): (r: seq<Row>)
    ensures |r| <= HistoryLimit && |r| <= |Mine(rows, userId, storeId)|
    ensures r == Mine(rows, userId, storeId)[..|r|]
    ensures |r| < HistoryLimit ==> r == Mine(rows, userId, storeId)
    ensures forall i :: 0 <= i < |r| ==> r[i].userId == userId && r[i].storeId == storeId
    ensures multiset(r) <= multiset(rows)
  {
    var mine := Mine(rows, userId, storeId);
    var r := Take(mine, HistoryLimit);
    assert mine == r + mine[|r|..];
    r
  }

  /** The stats over the fetched rows. */
  function StatsOf(rows: seq<Row>): (s: Stats)
    ensures s.totalPurchases == |rows|
    ensures rows == [] ==> s == Stats(0, 0.0, 0.0)
  {
    Stats(|rows|, SumOf(rows, PriceOf), SumOf(rows, TokensOf))
  }

  /** The stats are sums: one row gives its own price and tokens, and the
      stats of a split list are the stats of the parts added. */
  lemma StatsAreSums(xs: seq<Row>, ys: seq<Row>, x: Row)
    ensures StatsOf([x]) == Stats(1, x.totalPrice, x.tokensEarned)
    ensures StatsOf(xs + ys).totalPurchases == StatsOf(xs).totalPurchases + StatsOf(ys).totalPurchases
    ensures StatsOf(xs + ys).totalSpent == StatsOf(xs).totalSpent + StatsOf(ys).totalSpent
    ensures StatsOf(xs + ys).totalTokensEarned == StatsOf(xs).totalTokensEarned + StatsOf(ys).totalTokensEarned
  {
    SumOfSingleton(x, PriceOf);
    SumOfSingleton(x, TokensOf);
    SumOfAppend(xs, ys, PriceOf);
    SumOfAppend(xs, ys, TokensOf);
  }

  /** `fetchPurchases()`: a successful query replaces the rows and the stats
      together; a failed one leaves both as they were. Loading ends either way. */
  function Fetch(prev: Card, rows: seq<Row>, userId: string, storeId: string, queryOk: bool): (c: Card)
    ensures !c.loading
    ensures !queryOk ==> c.purchases == prev.purchases && c.stats == prev.stats
    ensures queryOk ==> c.purchases == Query(rows, userId, storeId) && c.stats == StatsOf(c.purchases)
  {
    if queryOk then
      var data := Query(rows, userId, storeId);
      Card(false, data, StatsOf(data))
    else prev.(loading := false)
  }

  /** After a successful fetch the stats describe exactly the rows on
      screen: the count is their number (at most ten), each sum splits at
      any row into the sums of the rows above and below, and a user with
      fewer than ten rows at the store sees the sums over all of them. */
  lemma StatsDescribeRows(prev: Card, rows: seq<Row>, userId: string, storeId: string, k: nat)
    requires k <= |Query(rows, userId, storeId)|
    ensures
      var c := Fetch(prev, rows, userId, storeId, true);
      && c.stats.totalPurchases == |c.purchases| <= HistoryLimit
      && c.stats.totalSpent == StatsOf(c.purchases[..k]).totalSpent + StatsOf(c.purchases[k..]).totalSpent
      && c.stats.totalTokensEarned
           == StatsOf(c.purchases[..k]).totalTokensEarned + StatsOf(c.purchases[k..]).totalTokensEarned
    ensures
      var c := Fetch(prev, rows, userId, storeId, true);
      var mine := Mine(rows, userId, storeId);
      |mine| < HistoryLimit ==> c.stats == Stats(|mine|, SumOf(mine, PriceOf), SumOf(mine, TokensOf))
  {
    var data := Query(rows, userId, storeId);
    assert data == data[..k] + data[k..];
    SumOfAppend(data[..k], data[k..], PriceOf);
    SumOfAppend(data[..k], data[k..], TokensOf);
  }

  /** A user with no purchases at the store sees all three stats at 0. */
  lemma NoDataMeansZeroStats(prev: Card, rows: seq<Row>, userId: string, storeId: string)
    requires forall i :: 0 <= i < |rows| ==> rows[i].userId != userId || rows[i].storeId != storeId
    ensures Fetch(prev, rows, userId, storeId, true).stats == Stats(0, 0.0, 0.0)
  {
    var data := Query(rows, userId, storeId);
    if |data| > 0 {
      assert false;
    }
  }

  datatype StatusLabel = Completed | Pending

  /** The badge: only the exact status `'completed'` shows as completed. */
  function Label(status: string): (l: StatusLabel)
    ensures l == Completed <==> status == "completed"
  {
    if status == "completed" then Completed else Pending
  }

  /** The badge's text. */
  function LabelText(l: StatusLabel): string
  {
    match l
    case Completed => "Tamamlandı"
    case Pending => "Beklemede"
  }

  /** A failed or refunded purchase is shown as pending. */
  lemma FailedShowsPending()
    ensures LabelText(Label("failed")) == "Beklemede"
    ensures LabelText(Label("refunded")) == "Beklemede"
    ensures LabelText(Label("completed")) == "Tamamlandı"
  {
    assert "failed" != "completed" by { assert "failed"[0] != "completed"[0]; }
    assert "refunded" != "completed" by { assert "refunded"[0] != "completed"[0]; }
  }
}
