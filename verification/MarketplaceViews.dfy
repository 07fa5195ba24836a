/** getMarketplaceStats and getMarketplaceHistory of src/services/marketplace.ts, served through 30-second caches. */
module MarketplaceViews {
  import opened Basics
  import opened Paging
  import M = Marketplace
  import RowKeys
  import TtlCache

  const CACHE_TTL_MS: nat := 30_000
  const DAY_MS: nat := 86_400_000

  /** A row of `purchases` with its AUTOINCREMENT id and its two instants. */
  datatype Trade = Trade(id: nat, purchase: M.Purchase, executedAt: Option<nat>, createdAt: nat)

  datatype Db = Db(listings: seq<M.Listing>, trades: seq<Trade>)

  /** COALESCE(executed_at, created_at). */
  function Instant(t: Trade): nat {
    if t.executedAt.Some? then t.executedAt.value else t.createdAt
  }

  // ---- stats ----

  datatype Stats = Stats(floor: nat, volume24h: nat, totalListings: nat, totalVolume: nat)

  /** MIN(total_price_usdc) of the active listings. */
  function Floor(listings: seq<M.Listing>): (r: Option<nat>)
    ensures r.None? <==> forall x :: x in listings ==> !x.status.Active?
    ensures r.Some? ==> (exists x :: x in listings && x.status.Active? && x.total == r.value)
                        && forall x :: x in listings && x.status.Active? ==> r.value <= x.total
  {
    if listings == [] then None else
      var init, last := listings[..|listings| - 1], listings[|listings| - 1];
      assert listings == init + [last];
      var r := Floor(init);
      if last.status.Active? && (r.None? || last.total < r.value) then Some(last.total) else r
  }

  function ActiveCount(listings: seq<M.Listing>): nat {
    if listings == [] then 0 else
      ActiveCount(listings[..|listings| - 1]) + if listings[|listings| - 1].status.Active? then 1 else 0
  }

  /** SUM(total_paid_usdc) of the trades at or after `since`, which may be negative. */
  function Volume(trades: seq<Trade>, since: int): nat {
    if trades == [] then 0 else
      var t := trades[|trades| - 1];
      Volume(trades[..|trades| - 1], since) + if Instant(t) >= since then t.purchase.paid else 0
  }

  function StatsOf(db: Db, now: nat): Stats {
    var floor := Floor(db.listings);
    Stats(if floor.None? then 0 else floor.value, Volume(db.trades, now - DAY_MS), ActiveCount(db.listings), Volume(db.trades, 0))
  }

  /** A trade counts towards the day's volume iff it was executed (or, without that instant, stored) at most 86,400,000 ms
      ago, and always towards the total; it touches nothing else of the stats. */
  lemma TradeCounts(db: Db, t: Trade, now: nat)
    ensures var s, s' := StatsOf(db, now), StatsOf(db.(trades := db.trades + [t]), now);
            && s'.floor == s.floor && s'.totalListings == s.totalListings
            && s'.totalVolume == s.totalVolume + t.purchase.paid
            && s'.volume24h == s.volume24h +
                 if (if t.executedAt.Some? then t.executedAt.value else t.createdAt) + 86_400_000 >= now then t.purchase.paid else 0
    ensures StatsOf(db.(trades := []), now).volume24h == 0 && StatsOf(db.(trades := []), now).totalVolume == 0
  {
    assert (db.trades + [t])[..|db.trades|] == db.trades;
  }

  ghost function ActiveOnes(listings: seq<M.Listing>): set<nat> {
    set k: nat | k < |listings| && listings[k].status.Active?
  }

  lemma {:induction false} CountIsActive(listings: seq<M.Listing>)
    ensures ActiveCount(listings) == |ActiveOnes(listings)|
  {
    if listings != [] {
      var n := |listings| - 1;
      CountIsActive(listings[..n]);
      assert ActiveOnes(listings) == ActiveOnes(listings[..n]) + (if listings[n].status.Active? then {n} else {});
    }
  }

  /** The listings the stats count and price are the active ones; with none the floor reads 0. */
  lemma ListingsCount(db: Db, now: nat)
    ensures var s := StatsOf(db, now);
            && s.totalListings == |set k: nat | k < |db.listings| && db.listings[k].status.Active?|
            && (s.totalListings == 0 ==> s.floor == 0)
            && (forall k :: 0 <= k < |db.listings| && db.listings[k].status.Active? ==> s.floor <= db.listings[k].total)
            && (s.totalListings > 0 ==> exists k :: 0 <= k < |db.listings| && db.listings[k].status.Active? && s.floor == db.listings[k].total)
  {
    CountIsActive(db.listings);
    var floor := Floor(db.listings);
    if floor.Some? {
      var x :| x in db.listings && x.status.Active? && x.total == floor.value;
      var k :| 0 <= k < |db.listings| && db.listings[k] == x;
      assert k in ActiveOnes(db.listings);
    } else {
      assert ActiveOnes(db.listings) == {};
    }
  }

  /** The day's volume is part of the total, and shrinks as the day moves on over unchanged trades. */
  lemma {:induction false} VolumeShrinks(trades: seq<Trade>, since: int, later: int)
    requires since <= later
    ensures Volume(trades, later) <= Volume(trades, since) <= Volume(trades, 0)
  {
    if trades != [] { VolumeShrinks(trades[..|trades| - 1], since, later); }
  }

  /** Over every run of the marketplace the listings the stats count and the purchases make up all listings. */
  lemma {:induction false} ActivePlusSold(market: string, ls: seq<M.Label>)
    ensures var db := M.Exec(market, ls).db;
            ActiveCount(db.listings) + |db.purchases| == |db.listings|
  {
    if ls != [] {
      ActivePlusSold(market, ls[..|ls| - 1]);
      StepBalances(M.Exec(market, ls[..|ls| - 1]), market, ls[|ls| - 1]);
    }
  }

  lemma StepBalances(s: M.State, market: string, l: M.Label)
    requires ActiveCount(s.db.listings) + |s.db.purchases| == |s.db.listings|
    ensures var db := M.Apply(s, market, l).db; ActiveCount(db.listings) + |db.purchases| == |db.listings|
  {
    match l
    case ListCommit(r, rpc, floor) =>
      if r in s.requests && s.requests[r].ToList? {
        var v := M.VerifyListing(market, s.requests[r].body, rpc, floor);
        if v.Ok? { InsertBalances(s.db, v.value); }
      }
    case BuyCommit(r, rpc) =>
      if r in s.requests && s.requests[r].ToBuy? {
        var v := M.VerifyBuy(market, s.requests[r].order, s.requests[r].row, rpc);
        if v.Ok? { FinalizeBalances(s.db, v.value); }
      }
    case _ =>
  }

  lemma InsertBalances(db: M.Tables, row: M.Listing)
    requires ActiveCount(db.listings) + |db.purchases| == |db.listings| && row.status.Active?
    ensures var r := M.Insert(db, row); r.Ok? ==> ActiveCount(r.value.listings) + |r.value.purchases| == |r.value.listings|
  {
    assert (db.listings + [row])[..|db.listings|] == db.listings;
  }

  lemma FinalizeBalances(db: M.Tables, p: M.Purchase)
    requires ActiveCount(db.listings) + |db.purchases| == |db.listings|
    ensures var r := M.Finalize(db, p); r.Ok? ==> ActiveCount(r.value.listings) + |r.value.purchases| == |r.value.listings|
  {
    var r := M.Finalize(db, p);
    if r.Ok? {
      var k :| 0 <= k < |db.listings| && db.listings[k].status.Active? && r.value.listings == db.listings[k := db.listings[k].(status := M.Executed)];
      OneSold(db.listings, k);
    }
  }

  lemma {:induction false} OneSold(listings: seq<M.Listing>, k: nat)
    requires k < |listings| && listings[k].status.Active?
    ensures ActiveCount(listings[k := listings[k].(status := M.Executed)]) == ActiveCount(listings) - 1
  {
    var n := |listings| - 1;
    var sold := listings[k := listings[k].(status := M.Executed)];
    if k == n {
      assert sold[..n] == listings[..n];
    } else {
      OneSold(listings[..n], k);
      assert sold[..n] == listings[..n][k := listings[..n][k].(status := M.Executed)];
    }
  }

  // ---- history ----

  /** ORDER BY COALESCE(executed_at, created_at) DESC, id DESC. */
  function Newest(): (Trade, Trade) -> bool {
    (x: Trade, y: Trade) => Instant(x) > Instant(y) || (Instant(x) == Instant(y) && x.id > y.id)
  }

  function HistoryOf(db: Db, limit: nat, offset: nat): seq<Trade> {
    Page(Sort(db.trades, Newest()), offset, limit)
  }

  predicate DistinctIds(trades: seq<Trade>) {
    forall i, j :: 0 <= i < j < |trades| ==> trades[i].id != trades[j].id
  }

  /** Executed later (or, without that instant, stored later), or at the same instant under a higher id. */
  predicate LaterTrade(x: Trade, y: Trade) {
    var a := if x.executedAt.Some? then x.executedAt.value else x.createdAt;
    var b := if y.executedAt.Some? then y.executedAt.value else y.createdAt;
    a > b || (a == b && x.id > y.id)
  }

  /** The page is cut from the one arrangement ORDER BY allows, so pages of one snapshot concatenate to all trades,
      newest first, each once. */
  lemma HistoryIsLossless(db: Db, limit: nat, offset: nat, answer: seq<Trade>)
    requires DistinctIds(db.trades) && limit > 0
    ensures Answer(db.trades, Newest(), Sort(db.trades, Newest()))
    ensures Answer(db.trades, Newest(), answer) ==>
              HistoryOf(db, limit, offset) == Page(answer, offset, limit) && Concat(Walk(answer, 0, limit)) == answer && Strict(answer, Newest())
    ensures Answer(db.trades, Newest(), answer) ==>
              forall i, j :: 0 <= i < j < |answer| ==> LaterTrade(answer[i], answer[j])
  {
    forall i, j | 0 <= i < |db.trades| && 0 <= j < |db.trades| && i != j
      ensures Newest()(db.trades[i], db.trades[j]) || Newest()(db.trades[j], db.trades[i])
    {
      assert db.trades[i].id != db.trades[j].id;
    }
    assert Decides(db.trades, Newest());
    SortAnswers(db.trades, Newest());
    if Answer(db.trades, Newest(), answer) {
      OneAnswer(db.trades, Newest(), answer, Sort(db.trades, Newest()));
      WalkIsLossless(answer, 0, limit);
      DecidesAnswer(db.trades, Newest(), answer);
      assert Strict(answer, Newest());
    }
  }

  /** The history cache key `${limit}|${offset}`. */
  function HistoryKey(page: (nat, nat)): string {
    RowKeys.Dec(page.0) + "|" + RowKeys.Dec(page.1)
  }

  lemma {:induction false} DecHasNoBar(n: nat)
    ensures '|' !in RowKeys.Dec(n)
  {
    if n >= 10 { DecHasNoBar(n / 10); }
  }

  /** No two pages share a cache entry. */
  lemma HistoryKeyInjective(a: (nat, nat), b: (nat, nat))
    ensures HistoryKey(a) == HistoryKey(b) ==> a == b
  {
    if HistoryKey(a) == HistoryKey(b) {
      DecHasNoBar(a.0);
      DecHasNoBar(b.0);
      BarSplits(RowKeys.Dec(a.0), RowKeys.Dec(a.1), RowKeys.Dec(b.0), RowKeys.Dec(b.1));
      RowKeys.DecInjective(a.0, b.0);
      RowKeys.DecInjective(a.1, b.1);
    }
  }

  lemma FirstBar(x: string, y: string)
    requires '|' !in x
    ensures var s := x + "|" + y;
            s[|x|] == '|' && (forall i :: 0 <= i < |x| ==> s[i] != '|') && s[..|x|] == x && s[|x| + 1..] == y
  {
    assert forall i :: 0 <= i < |x| ==> x[i] in x;
  }

  lemma BarSplits(x: string, y: string, z: string, w: string)
    requires '|' !in x && '|' !in z && x + "|" + y == z + "|" + w
    ensures x == z && y == w
  {
    FirstBar(x, y);
    FirstBar(z, w);
  }

  /** There is one set of stats, cached under one key. */
  datatype TheStats = TheStats

  function StatsKey(k: TheStats): string {
    match k case TheStats => "stats"
  }

  lemma OnlyOneStats(a: TheStats, b: TheStats)
    ensures a == b
  {
    match a case TheStats => match b case TheStats =>
  }

  // ---- the service ----

  class Views {
    const stats: TtlCache.CachedQuery<TheStats, Db, Stats>
    const history: TtlCache.CachedQuery<(nat, nat), Db, seq<Trade>>

    ghost predicate Valid() reads this, stats, stats.cache, history, history.cache {
      && stats.Valid() && history.Valid() && {stats, stats.cache} !! {history, history.cache}
      && stats.query == ((k: TheStats, db: Db, now: nat) => StatsOf(db, now)) && stats.cache.ttl == CACHE_TTL_MS
      && history.query == ((page: (nat, nat), db: Db, now: nat) => HistoryOf(db, page.0, page.1)) && history.cache.ttl == CACHE_TTL_MS
    }

    constructor (db: Db)
      ensures Valid() && stats.db == db && history.db == db && fresh({stats, stats.cache, history, history.cache})
    {
      forall a, b ensures StatsKey(a) == StatsKey(b) ==> a == b { OnlyOneStats(a, b); }
      stats := new TtlCache.CachedQuery(db, StatsKey, (k: TheStats, db: Db, now: nat) => StatsOf(db, now), CACHE_TTL_MS);
      forall a: (nat, nat), b: (nat, nat) ensures HistoryKey(a) == HistoryKey(b) ==> a == b { HistoryKeyInjective(a, b); }
      history := new TtlCache.CachedQuery(db, HistoryKey,
        (page: (nat, nat), db: Db, now: nat) => HistoryOf(db, page.0, page.1), CACHE_TTL_MS);
    }

    /** The tables change; neither cache is told. */
    method Write(db: Db, now: nat)
      requires Valid() && stats.clock <= now && history.clock <= now
      modifies stats, history
      ensures Valid() && stats.db == history.db == db
      ensures stats.versions == old(stats.versions) + [TtlCache.Version(now, db)]
      ensures history.versions == old(history.versions) + [TtlCache.Version(now, db)]
    {
      stats.Write(db, now);
      history.Write(db, now);
    }

    /** Served stats are those of the database at some instant within the 30 s before the call, or of the database
        as it is. */
    method GetMarketplaceStats(read: nat, asked: nat, stored: nat) returns (v: Stats)
      requires Valid() && stats.clock <= read <= asked <= stored
      modifies stats, stats.cache
      ensures Valid() && stats.db == old(stats.db) && stats.versions == old(stats.versions)
      ensures || v == StatsOf(stats.db, asked)
              || exists t: nat, i: nat, then_: nat ::
                   && t <= read < t + 30_000 && then_ <= t
                   && TtlCache.Current(stats.versions, i, t) && v == StatsOf(stats.versions[i].db, then_)
    {
      v := stats.Serve(TheStats, read, asked, stored);
    }

    /** Served pages likewise, each page its own. */
    method GetMarketplaceHistory(limit: nat, offset: nat, read: nat, asked: nat, stored: nat) returns (v: seq<Trade>)
      requires Valid() && history.clock <= read <= asked <= stored
      modifies history, history.cache
      ensures Valid() && history.db == old(history.db) && history.versions == old(history.versions)
      ensures || v == HistoryOf(history.db, limit, offset)
              || exists t: nat, i: nat ::
                   && t <= read < t + 30_000
                   && TtlCache.Current(history.versions, i, t) && v == HistoryOf(history.versions[i].db, limit, offset)
    {
      v := history.Serve((limit, offset), read, asked, stored);
    }
  }
}
