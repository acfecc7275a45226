/** The store directory: a case-insensitive search over name, description and
    token symbol, a category filter, a descending sort on the chosen figure,
    and three totals over the whole catalogue. The catalogue itself is a
    parameter. */
module Stores {
  import opened Common
  import opened Text

  /** The fields of a catalogue entry that the page reads. */
  datatype Store = Store(
    id: string,
    name: string,
    description: string,
    category: string,
    tokenSymbol: string,
    tokenPrice: real,
    holders: real,
    monthlyRevenue: real,
    governanceScore: real)

  const AllCategories: string := "All Categories"

  /** The search test: the lower-cased term occurs in the lower-cased name,
      description or symbol. */
  predicate MatchesSearch(s: Store, term: string)
  {
    var t := ToLower(term);
    Contains(ToLower(s.name), t) || Contains(ToLower(s.description), t) || Contains(ToLower(s.tokenSymbol), t)
  }

  predicate MatchesCategory(s: Store, category: string)
  {
    category == AllCategories || s.category == category
  }

  predicate Matches(s: Store, term: string, category: string)
  {
    MatchesSearch(s, term) && MatchesCategory(s, category)
  }

  /** The `.filter(...)` step: the matching stores in catalogue order. */
  function Matching(stores: seq<Store>, term: string, category: string): (r: seq<Store>)
    ensures |r| <= |stores|
    ensures forall i :: 0 <= i < |r| ==> Matches(r[i], term, category)
    ensures forall s :: s in stores && Matches(s, term, category) ==> s in r
    ensures multiset(r) <= multiset(stores)
    decreases |stores|
  {
    if |stores| == 0 then []
    else
      assert stores == [stores[0]] + stores[1..];
      var rest := Matching(stores[1..], term, category);
      if Matches(stores[0], term, category) then [stores[0]] + rest else rest
  }

  /** The empty search term matches every store. */
  lemma EmptyTermMatchesAll(s: Store)
    ensures MatchesSearch(s, "")
  {
    assert ToLower("") == "";
    ContainsEmpty(ToLower(s.name));
  }

  /** The search does not depend on the case of the term's letters. */
  lemma SearchIgnoresCase(s: Store, term: string)
    ensures MatchesSearch(s, ToUpper(term)) <==> MatchesSearch(s, term)
    ensures MatchesSearch(s, ToLower(term)) <==> MatchesSearch(s, term)
  {
    CaseMappingsAgreeOnLetters(term);
    assert ToLower(ToLower(term)) == ToLower(term);
  }

  /** With the empty term and "All Categories" every store is listed, in
      catalogue order. */
  lemma {:induction false} NoFilterKeepsAll(stores: seq<Store>)
    ensures Matching(stores, "", AllCategories) == stores
    decreases |stores|
  {
    if |stores| > 0 {
      EmptyTermMatchesAll(stores[0]);
      NoFilterKeepsAll(stores[1..]);
    }
  }

  /** Filtering keeps catalogue order: it distributes over concatenation. */
  lemma {:induction false} MatchingKeepsOrder(xs: seq<Store>, ys: seq<Store>, term: string, category: string)
    ensures Matching(xs + ys, term, category) == Matching(xs, term, category) + Matching(ys, term, category)
    decreases |xs|
  {
    if |xs| > 0 {
      assert (xs + ys)[1..] == xs[1..] + ys;
      assert (xs + ys)[0] == xs[0];
      MatchingKeepsOrder(xs[1..], ys, term, category);
    } else {
      assert xs + ys == ys;
    }
  }

  /** The comparator's figure for a `sortBy` value; any other value compares
      every pair as equal, which a constant figure models. */
  function SortKey(sortBy: string, s: Store): real
  {
    if sortBy == "holders" then s.holders
    else if sortBy == "revenue" then s.monthlyRevenue
    else if sortBy == "governance" then s.governanceScore
    else if sortBy == "price" then s.tokenPrice
    else 0.0
  }

  predicate IsKnownSort(sortBy: string)
  {
    sortBy == "holders" || sortBy == "revenue" || sortBy == "governance" || sortBy == "price"
  }

  /** Highest figure first. */
  predicate SortedDesc(xs: seq<Store>, sortBy: string)
  {
    forall i, j :: 0 <= i < j < |xs| ==> SortKey(sortBy, xs[i]) >= SortKey(sortBy, xs[j])
  }

  /** Places `x` in front of the first entry whose figure is not above its
      own, so that it stays ahead of later entries with the same figure. */
  function Insert(x: Store, ys: seq<Store>, sortBy: string): (r: seq<Store>)
    requires SortedDesc(ys, sortBy)
    ensures SortedDesc(r, sortBy)
    ensures multiset(r) == multiset{x} + multiset(ys)
    ensures |r| == |ys| + 1 && (r[0] == x || (|ys| > 0 && r[0] == ys[0]))
    ensures |ys| > 0 && SortKey(sortBy, ys[0]) <= SortKey(sortBy, x) ==> r == [x] + ys
    decreases |ys|
  {
    if |ys| == 0 || SortKey(sortBy, ys[0]) <= SortKey(sortBy, x) then [x] + ys
    else
      var rest := Insert(x, ys[1..], sortBy);
      assert ys == [ys[0]] + ys[1..];
      [ys[0]] + rest
  }

  /** The `.sort(...)` step, as the stable sort JavaScript specifies. */
  function Sort(xs: seq<Store>, sortBy: string): (r: seq<Store>)
    ensures SortedDesc(r, sortBy)
    ensures multiset(r) == multiset(xs)
    decreases |xs|
  {
    if |xs| == 0 then []
    else
      assert xs == [xs[0]] + xs[1..];
      Insert(xs[0], Sort(xs[1..], sortBy), sortBy)
  }

  /** With an unrecognised `sortBy` the comparator returns 0, and a stable
      sort then leaves the filtered order as it was. */
  lemma {:induction false} UnknownSortKeepsOrder(xs: seq<Store>, sortBy: string)
    requires !IsKnownSort(sortBy)
    ensures Sort(xs, sortBy) == xs
    decreases |xs|
  {
    if |xs| > 0 {
      var tail := xs[1..];
      UnknownSortKeepsOrder(tail, sortBy);
      assert SortKey(sortBy, xs[0]) == 0.0;
      assert |tail| > 0 ==> SortKey(sortBy, tail[0]) == 0.0;
      assert Sort(xs, sortBy) == Insert(xs[0], tail, sortBy);
      assert xs == [xs[0]] + tail;
    }
  }

  /** `filteredStores`. */
  function Listed(stores: seq<Store>, term: string, category: string, sortBy: string): (r: seq<Store>)
    ensures SortedDesc(r, sortBy)
    ensures multiset(r) == multiset(Matching(stores, term, category))
    ensures multiset(r) <= multiset(stores)
  {
    Sort(Matching(stores, term, category), sortBy)
  }

  /** Exactly the matching stores are listed. */
  lemma ListedAreTheMatches(stores: seq<Store>, term: string, category: string, sortBy: string, s: Store)
    ensures s in Listed(stores, term, category, sortBy) <==> s in stores && Matches(s, term, category)
  {
    var m := Matching(stores, term, category);
    SameElements(Listed(stores, term, category, sortBy), m);
    if s in m {
      var i :| 0 <= i < |m| && m[i] == s;
      assert s in multiset(stores);
    }
  }

  /** Sequences with the same multiset hold the same elements. */
  lemma SameElements<T>(a: seq<T>, b: seq<T>)
    requires multiset(a) == multiset(b)
    ensures forall x :: x in a <==> x in b
  {
    forall x
      ensures x in a <==> x in b
    {
      assert x in a <==> x in multiset(a);
    }
  }

  function HoldersOf(s: Store): real { s.holders }

  function RevenueOf(s: Store): real { s.monthlyRevenue }

  /** The three header figures. */
  datatype Totals = Totals(totalStores: int, totalHolders: real, totalVolume: real)

  /** The header: computed over the whole catalogue, whatever is listed. */
  function TotalsOf(stores: seq<Store>): (t: Totals)
    ensures t.totalStores == |stores|
    ensures (forall i :: 0 <= i < |stores| ==> stores[i].holders >= 0.0) ==> t.totalHolders >= 0.0
    ensures (forall i :: 0 <= i < |stores| ==> stores[i].monthlyRevenue >= 0.0) ==> t.totalVolume >= 0.0
  {
    SumOfNonNegativeWhen(stores, HoldersOf);
    SumOfNonNegativeWhen(stores, RevenueOf);
    Totals(|stores|, SumOf(stores, HoldersOf), SumOf(stores, RevenueOf))
  }

  /** The header figures are sums over the catalogue: an empty catalogue
      gives 0, one store gives its own holders and revenue, and the totals
      of a split catalogue are the totals of the parts added. */
  lemma TotalsAreSums(xs: seq<Store>, ys: seq<Store>, s: Store)
    ensures TotalsOf([]) == Totals(0, 0.0, 0.0)
    ensures TotalsOf([s]) == Totals(1, s.holders, s.monthlyRevenue)
    ensures TotalsOf(xs + ys).totalStores == TotalsOf(xs).totalStores + TotalsOf(ys).totalStores
    ensures TotalsOf(xs + ys).totalHolders == TotalsOf(xs).totalHolders + TotalsOf(ys).totalHolders
    ensures TotalsOf(xs + ys).totalVolume == TotalsOf(xs).totalVolume + TotalsOf(ys).totalVolume
  {
    SumOfSingleton(s, HoldersOf);
    SumOfSingleton(s, RevenueOf);
    SumOfAppend(xs, ys, HoldersOf);
    SumOfAppend(xs, ys, RevenueOf);
  }

  /** Filtering never raises a sum of non-negative figures. */
  lemma {:induction false} MatchingSumBound(stores: seq<Store>, term: string, category: string, f: Store -> real)
    requires forall i :: 0 <= i < |stores| ==> f(stores[i]) >= 0.0
    ensures SumOf(Matching(stores, term, category), f) <= SumOf(stores, f)
    decreases |stores|
  {
    if |stores| > 0 {
      var rest := stores[1..];
      assert stores == [stores[0]] + rest;
      MatchingSumBound(rest, term, category, f);
      SumOfCons(stores[0], rest, f);
      if Matches(stores[0], term, category) {
        SumOfCons(stores[0], Matching(rest, term, category), f);
      }
    }
  }

  /** Sorting does not change a sum. */
  lemma {:induction false} SortKeepsSum(xs: seq<Store>, sortBy: string, f: Store -> real)
    ensures SumOf(Sort(xs, sortBy), f) == SumOf(xs, f)
    decreases |xs|
  {
    if |xs| > 0 {
      SortKeepsSum(xs[1..], sortBy, f);
      InsertAddsToSum(xs[0], Sort(xs[1..], sortBy), sortBy, f);
      SumOfCons(xs[0], xs[1..], f);
      assert xs == [xs[0]] + xs[1..];
    }
  }

  lemma {:induction false} InsertAddsToSum(x: Store, ys: seq<Store>, sortBy: string, f: Store -> real)
    requires SortedDesc(ys, sortBy)
    ensures SumOf(Insert(x, ys, sortBy), f) == f(x) + SumOf(ys, f)
    decreases |ys|
  {
    SumOfCons(x, ys, f);
    if |ys| > 0 && SortKey(sortBy, ys[0]) > SortKey(sortBy, x) {
      InsertAddsToSum(x, ys[1..], sortBy, f);
      SumOfCons(ys[0], Insert(x, ys[1..], sortBy), f);
      SumOfCons(ys[0], ys[1..], f);
      assert ys == [ys[0]] + ys[1..];
    }
  }

  /** The header does not follow the search: its figures are the same for
      every term, category and order, and with non-negative figures they are
      never below the figures of the listed stores. */
  lemma HeaderCoversWholeCatalogue(stores: seq<Store>, term: string, category: string, sortBy: string)
    requires forall i :: 0 <= i < |stores| ==> stores[i].holders >= 0.0 && stores[i].monthlyRevenue >= 0.0
    ensures
      var listed := Listed(stores, term, category, sortBy);
      var t := TotalsOf(stores);
      && |listed| <= t.totalStores
      && SumOf(listed, HoldersOf) <= t.totalHolders
      && SumOf(listed, RevenueOf) <= t.totalVolume
  {
    var m := Matching(stores, term, category);
    var listed := Listed(stores, term, category, sortBy);
    assert |listed| == |multiset(listed)| == |multiset(m)| == |m|;
    MatchingSumBound(stores, term, category, HoldersOf);
    MatchingSumBound(stores, term, category, RevenueOf);
    SortKeepsSum(m, sortBy, HoldersOf);
    SortKeepsSum(m, sortBy, RevenueOf);
  }
}
