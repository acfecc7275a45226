/** The signed-in user's dashboard: token holdings from the active
    memberships, the five newest purchases, the five newest votes, and the
    stats computed from them. The three queries are read from an abstract
    database whose purchase and vote tables are already in the backend's
    newest-first order; each query's success is a parameter, and the first
    failing query abandons the rest of the fetch. */
module Dashboard {
  import opened Common

  /** A `store_memberships` row joined with its store's name and symbol;
      a null `is_active` never matches the `is_active = true` filter. */
  datatype MembershipRow = MembershipRow(
    userId: string,
    storeId: string,
    storeName: string,
    tokenSymbol: string,
    tokenBalance: Option<real>,
    membershipType: string,
    isActive: bool)

  /** A `purchases` row joined with its store's name. */
  datatype PurchaseRow = PurchaseRow(
    id: string,
    userId: string,
    storeName: string,
    totalPrice: real,
    tokensEarned: real,
    purchaseDate: string,
    status: string)

  /** A `governance_votes` row joined with its proposal's title and store. */
  datatype VoteRow = VoteRow(
    userId: string,
    proposalTitle: string,
    voteType: string,
    tokenWeight: real,
    createdAt: string,
    storeName: string)

  datatype Db = Db(memberships: seq<MembershipRow>, purchases: seq<PurchaseRow>, votes: seq<VoteRow>)

  datatype Holding = Holding(storeName: string, tokenSymbol: string, tokenBalance: real,
                             storeId: string, membershipType: string)

  datatype Stats = Stats(totalTokens: real, totalInvested: real, storeMemberships: int,
                         totalPurchases: int, governanceVotes: int)

  datatype Page = Page(loading: bool, stats: Stats, holdings: seq<Holding>,
                       recentPurchases: seq<PurchaseRow>, governanceActivity: seq<VoteRow>)

  const RecentLimit: nat := 5

  /** The page before its first fetch: loading, all stats 0, empty lists. */
  function Initial(): (p: Page)
    ensures p.loading && p.holdings == [] && p.recentPurchases == [] && p.governanceActivity == []
    ensures p.stats == Stats(0.0, 0.0, 0, 0, 0)
  {
    Page(true, Stats(0.0, 0.0, 0, 0, 0), [], [], [])
  }

  function BalanceOf(h: Holding): real { h.tokenBalance }

  function PriceOf(p: PurchaseRow): real { p.totalPrice }

  /** One holding per membership row; a null balance counts as 0. */
  function ToHolding(m: MembershipRow): (h: Holding)
    ensures m.tokenBalance.None? ==> h.tokenBalance == 0.0
    ensures m.tokenBalance.Some? ==> h.tokenBalance == m.tokenBalance.value
    ensures h.storeId == m.storeId && h.storeName == m.storeName && h.tokenSymbol == m.tokenSymbol
    ensures h.membershipType == m.membershipType
  {
    Holding(m.storeName, m.tokenSymbol, if m.tokenBalance.Some? then m.tokenBalance.value else 0.0,
            m.storeId, m.membershipType)
  }

  /** The membership query: the user's active rows, in table order. */
  function ActiveMemberships(rows: seq<MembershipRow>, userId: string): (r: seq<MembershipRow>)
    ensures forall i :: 0 <= i < |r| ==> r[i].userId == userId && r[i].isActive
    ensures forall m :: m in rows && m.userId == userId && m.isActive ==> m in r
    ensures multiset(r) <= multiset(rows)
  {
    Filter(rows, (m: MembershipRow) => m.userId == userId && m.isActive)
  }

  /** The holdings built from the membership query. */
  function HoldingsOf(rows: seq<MembershipRow>, userId: string): (hs: seq<Holding>)
    ensures |hs| == |ActiveMemberships(rows, userId)|
    ensures forall i :: 0 <= i < |hs| ==> hs[i] == ToHolding(ActiveMemberships(rows, userId)[i])
  {
    var active := ActiveMemberships(rows, userId);
    seq(|active|, i requires 0 <= i < |active| => ToHolding(active[i]))
  }

  /** All of the user's purchase rows, newest first. */
  function UserPurchases(rows: seq<PurchaseRow>, userId: string): (r: seq<PurchaseRow>)
    ensures forall i :: 0 <= i < |r| ==> r[i].userId == userId
    ensures forall p :: p in rows && p.userId == userId ==> p in r
    ensures multiset(r) <= multiset(rows)
  {
    Filter(rows, (p: PurchaseRow) => p.userId == userId)
  }

  /** The purchase query: the user's rows, newest first, at most five. */
  function RecentPurchasesOf(rows: seq<PurchaseRow>, userId: string): (r: seq<PurchaseRow>)
    ensures |r| <= RecentLimit && |r| <= |UserPurchases(rows, userId)|
    ensures r == UserPurchases(rows, userId)[..|r|]
    ensures |r| < RecentLimit ==> r == UserPurchases(rows, userId)
  {
    Take(UserPurchases(rows, userId), RecentLimit)
  }

  /** All of the user's vote rows, newest first. */
  function UserVotes(rows: seq<VoteRow>, userId: string): (r: seq<VoteRow>)
    ensures forall i :: 0 <= i < |r| ==> r[i].userId == userId
    ensures forall v :: v in rows && v.userId == userId ==> v in r
    ensures multiset(r) <= multiset(rows)
  {
    Filter(rows, (v: VoteRow) => v.userId == userId)
  }

  /** The vote query: the user's rows, newest first, at most five. */
  function RecentVotesOf(rows: seq<VoteRow>, userId: string): (r: seq<VoteRow>)
    ensures |r| <= RecentLimit && |r| <= |UserVotes(rows, userId)|
    ensures r == UserVotes(rows, userId)[..|r|]
    ensures |r| < RecentLimit ==> r == UserVotes(rows, userId)
    ensures forall i :: 0 <= i < |r| ==> r[i].userId == userId
  {
    Take(UserVotes(rows, userId), RecentLimit)
  }

  /** The stats block, from the three lists the fetch produced. */
  function StatsOf(hs: seq<Holding>, ps: seq<PurchaseRow>, vs: seq<VoteRow>): (s: Stats)
    ensures s.storeMemberships == |hs| && s.totalPurchases == |ps| && s.governanceVotes == |vs|
    ensures (forall i :: 0 <= i < |hs| ==> hs[i].tokenBalance >= 0.0) ==> s.totalTokens >= 0.0
    ensures (forall i :: 0 <= i < |ps| ==> ps[i].totalPrice >= 0.0) ==> s.totalInvested >= 0.0
  {
    SumOfNonNegativeWhen(hs, BalanceOf);
    SumOfNonNegativeWhen(ps, PriceOf);
    Stats(SumOf(hs, BalanceOf), SumOf(ps, PriceOf), |hs|, |ps|, |vs|)
  }

  /** The two totals are sums: no holdings and no purchases give 0, one
      holding gives its balance, one purchase its price, and splitting a
      list splits the total. The counts are additive the same way. */
  lemma StatsAreSums(hs1: seq<Holding>, hs2: seq<Holding>, ps1: seq<PurchaseRow>, ps2: seq<PurchaseRow>,
                     vs: seq<VoteRow>, h: Holding, p: PurchaseRow)
    ensures StatsOf([], [], vs) == Stats(0.0, 0.0, 0, 0, |vs|)
    ensures StatsOf([h], [p], vs).totalTokens == h.tokenBalance
    ensures StatsOf([h], [p], vs).totalInvested == p.totalPrice
    ensures StatsOf(hs1 + hs2, ps1 + ps2, vs).totalTokens
      == StatsOf(hs1, ps1, vs).totalTokens + StatsOf(hs2, ps2, vs).totalTokens
    ensures StatsOf(hs1 + hs2, ps1 + ps2, vs).totalInvested
      == StatsOf(hs1, ps1, vs).totalInvested + StatsOf(hs2, ps2, vs).totalInvested
    ensures StatsOf(hs1 + hs2, ps1 + ps2, vs).storeMemberships
      == StatsOf(hs1, ps1, vs).storeMemberships + StatsOf(hs2, ps2, vs).storeMemberships
  {
    SumOfSingleton(h, BalanceOf);
    SumOfSingleton(p, PriceOf);
    SumOfAppend(hs1, hs2, BalanceOf);
    SumOfAppend(ps1, ps2, PriceOf);
  }

  /** `fetchDashboardData()`: without a user nothing happens. A failed
      membership query leaves everything as it was; a failed purchase query
      leaves only the holdings updated; a failed vote query leaves the
      holdings and purchases updated; only a complete fetch sets the stats.
      The loading flag is cleared in every case. */
  function Fetch(prev: Page, user: Option<string>, db: Db,
                 membershipsOk: bool, purchasesOk: bool, votesOk: bool): (r: Page)
    ensures user.None? ==> r == prev
    ensures user.Some? ==> !r.loading
    ensures user.Some? && !membershipsOk ==> r == prev.(loading := false)
    ensures user.Some? && membershipsOk ==> r.holdings == HoldingsOf(db.memberships, user.value)
    ensures user.Some? && membershipsOk && !purchasesOk ==>
      r.recentPurchases == prev.recentPurchases && r.governanceActivity == prev.governanceActivity
    ensures user.Some? && membershipsOk && purchasesOk ==>
      r.recentPurchases == RecentPurchasesOf(db.purchases, user.value)
    ensures user.Some? && membershipsOk && purchasesOk && !votesOk ==>
      r.governanceActivity == prev.governanceActivity
    ensures user.Some? && membershipsOk && purchasesOk && votesOk ==>
      r.governanceActivity == RecentVotesOf(db.votes, user.value)
    ensures !(user.Some? && membershipsOk && purchasesOk && votesOk) ==> r.stats == prev.stats
    ensures user.Some? && membershipsOk && purchasesOk && votesOk ==>
      r.stats == StatsOf(r.holdings, r.recentPurchases, r.governanceActivity)
  {
    if user.None? then prev
    else if !membershipsOk then prev.(loading := false)
    else
      var hs := HoldingsOf(db.memberships, user.value);
      if !purchasesOk then prev.(loading := false, holdings := hs)
      else
        var ps := RecentPurchasesOf(db.purchases, user.value);
        if !votesOk then prev.(loading := false, holdings := hs, recentPurchases := ps)
        else
          var vs := RecentVotesOf(db.votes, user.value);
          Page(false, StatsOf(hs, ps, vs), hs, ps, vs)
  }

  /** After a complete fetch the stats count the user's active memberships,
      at most five purchases and at most five votes. */
  lemma FetchedCounts(prev: Page, userId: string, db: Db)
    ensures
      var r := Fetch(prev, Some(userId), db, true, true, true);
      && r.stats.storeMemberships == |ActiveMemberships(db.memberships, userId)|
      && 0 <= r.stats.totalPurchases <= RecentLimit
      && 0 <= r.stats.governanceVotes <= RecentLimit
  {
  }

  /** Each holding carries the balance of the membership row it came from,
      or 0 for a null balance, so the token total counts a null row as 0. */
  lemma NullBalanceCountsAsZero(prev: Page, userId: string, db: Db, m: MembershipRow)
    requires m in db.memberships && m.userId == userId && m.isActive && m.tokenBalance.None?
    ensures
      var r := Fetch(prev, Some(userId), db, true, true, true);
      exists i :: 0 <= i < |r.holdings| && r.holdings[i].storeId == m.storeId && BalanceOf(r.holdings[i]) == 0.0
  {
    var active := ActiveMemberships(db.memberships, userId);
    var i :| 0 <= i < |active| && active[i] == m;
    var r := Fetch(prev, Some(userId), db, true, true, true);
    assert r.holdings[i] == ToHolding(m);
  }

  /** "Total invested" covers only the five fetched purchases: with
      non-negative prices it is at most what the user spent in all, and it
      is all of it when the user has fewer than five purchases. */
  lemma InvestedCoversRecentOnly(prev: Page, userId: string, db: Db)
    requires forall i :: 0 <= i < |db.purchases| ==> db.purchases[i].totalPrice >= 0.0
    ensures
      var all := UserPurchases(db.purchases, userId);
      var r := Fetch(prev, Some(userId), db, true, true, true);
      && r.stats.totalInvested <= SumOf(all, PriceOf)
      && (|all| < RecentLimit ==> r.stats.totalInvested == SumOf(all, PriceOf))
  {
    var all := UserPurchases(db.purchases, userId);
    var recent := RecentPurchasesOf(db.purchases, userId);
    forall i | 0 <= i < |all|
      ensures PriceOf(all[i]) >= 0.0
    {
      assert all[i] in multiset(db.purchases);
    }
    SumOfPrefixBound(all, |recent|, PriceOf);
  }
}
