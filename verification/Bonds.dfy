/** getBondsByWallet of src/services/bonds.ts: load, cache, filter, sort, slice. */
module Bonds {
  import opened Basics
  import opened Paging
  import Calendar
  import TtlCache

  datatype Bond = Bond(epoch: nat, balance: nat, isMatured: bool, isRedeemed: bool)

  datatype Status = Active | Matured | Redeemed | All

  datatype EpochInfo = EpochInfo(exists_: bool, matured: bool)

  /** What the chain answers during one load: balanceOfBatch (None when it reverts), balanceOf per epoch and
      getEpochInfo per epoch (None when the call fails), at a UTC year and month. */
  datatype Chain = Chain(year: nat, month: nat, batch: Option<seq<nat>>, single: nat -> Option<nat>, info: nat -> Option<EpochInfo>)

  // ---- loading ----

  /** The balance the load sees for the i-th candidate: a missing or failed answer reads as zero. */
  function BalanceSeen(chain: Chain, i: nat, epoch: nat): nat {
    if chain.batch.Some? then (if i < |chain.batch.value| then chain.batch.value[i] else 0)
    else if chain.single(epoch).Some? then chain.single(epoch).value else 0
  }

  predicate Listed(chain: Chain, i: nat, epoch: nat) {
    BalanceSeen(chain, i, epoch) > 0 && chain.info(epoch).Some? && chain.info(epoch).value.exists_
  }

  /** Strictly increasing epochs. */
  predicate Ascending(bonds: seq<Bond>) {
    forall i, j :: 0 <= i < j < |bonds| ==> bonds[i].epoch < bonds[j].epoch
  }

  /** What every load yields: no bond is redeemed, because only positive balances are kept. */
  predicate Loaded(bonds: seq<Bond>) {
    Ascending(bonds) && forall i :: 0 <= i < |bonds| ==> bonds[i].balance > 0 && !bonds[i].isRedeemed
  }

  /** The bond of candidate i, as seen. */
  function BondOf(chain: Chain, i: nat, epoch: nat): Bond
    requires Listed(chain, i, epoch)
  {
    var balance := BalanceSeen(chain, i, epoch);
    Bond(epoch, balance, chain.info(epoch).value.matured, balance == 0)
  }

  /** Lists exactly the enumerated epochs with a positive balance and readable, existing metadata, oldest first. */
  method LoadAllBondsForWallet(chain: Chain) returns (epochs: seq<nat>, bonds: seq<Bond>)
    requires chain.month < 12
    ensures |epochs| == if chain.year * 12 + chain.month + 27 >= Calendar.START then chain.year * 12 + chain.month + 28 - Calendar.START else 0
    ensures forall i :: 0 <= i < |epochs| ==> epochs[i] == Calendar.Code(Calendar.START + i)
    ensures Loaded(bonds)
    ensures forall i :: 0 <= i < |epochs| && Listed(chain, i, epochs[i]) ==> BondOf(chain, i, epochs[i]) in bonds
    ensures forall b :: b in bonds ==> exists i :: 0 <= i < |epochs| && Listed(chain, i, epochs[i]) && b == BondOf(chain, i, epochs[i])
    ensures forall b :: b in bonds ==>
              chain.info(b.epoch).Some? && chain.info(b.epoch).value.exists_ && b.isMatured == chain.info(b.epoch).value.matured
    ensures chain.batch.None? ==> forall b :: b in bonds ==> chain.single(b.epoch) == Some(b.balance)
    ensures chain.batch.Some? ==> forall b :: b in bonds ==>
              exists i :: 0 <= i < |epochs| && i < |chain.batch.value| && epochs[i] == b.epoch && chain.batch.value[i] == b.balance
    ensures forall i :: 0 <= i < |epochs| && chain.info(epochs[i]).Some? && chain.info(epochs[i]).value.exists_
              && (if chain.batch.Some? then i < |chain.batch.value| && chain.batch.value[i] > 0
                  else chain.single(epochs[i]).Some? && chain.single(epochs[i]).value > 0)
              ==> exists b :: b in bonds && b.epoch == epochs[i]
  {
    epochs := Calendar.EnumerateEpochs(chain.year, chain.month);
    bonds := [];
    var i := 0;
    while i < |epochs|
      invariant i <= |epochs| && Loaded(bonds)
      invariant forall j :: 0 <= j < |bonds| && i < |epochs| ==> bonds[j].epoch < epochs[i]
      invariant forall k :: 0 <= k < i && Listed(chain, k, epochs[k]) ==> BondOf(chain, k, epochs[k]) in bonds
      invariant forall b :: b in bonds ==> exists k :: 0 <= k < i && Listed(chain, k, epochs[k]) && b == BondOf(chain, k, epochs[k])
    {
      if Listed(chain, i, epochs[i]) {
        bonds := bonds + [BondOf(chain, i, epochs[i])];
      }
      i := i + 1;
    }
    forall k | 0 <= k < |epochs| && chain.info(epochs[k]).Some? && chain.info(epochs[k]).value.exists_
               && (if chain.batch.Some? then k < |chain.batch.value| && chain.batch.value[k] > 0
                   else chain.single(epochs[k]).Some? && chain.single(epochs[k]).value > 0)
      ensures exists b :: b in bonds && b.epoch == epochs[k]
    {
      assert BondOf(chain, k, epochs[k]) in bonds;
    }
  }

  // ---- views ----

  predicate Shows(status: Status, b: Bond) {
    match status
    case Active => !b.isRedeemed && !b.isMatured
    case Matured => !b.isRedeemed && b.isMatured
    case Redeemed => b.isRedeemed
    case All => !b.isRedeemed
  }

  function View(bonds: seq<Bond>, status: Status): seq<Bond> {
    if bonds == [] then [] else
    var n := |bonds| - 1;
    View(bonds[..n], status) + if Shows(status, bonds[n]) then [bonds[n]] else []
  }

  /** The comparator of the sort: newest epoch first. */
  function Newer(): (Bond, Bond) -> bool {
    (x: Bond, y: Bond) => x.epoch > y.epoch
  }

  lemma {:induction false} ViewIsExact(bonds: seq<Bond>, status: Status, b: Bond)
    requires Ascending(bonds)
    ensures b in View(bonds, status) <==> b in bonds && Shows(status, b)
    ensures b in View(bonds, status) <==>
              b in bonds && (b.isRedeemed <==> status.Redeemed?) && (status.Active? ==> !b.isMatured) && (status.Matured? ==> b.isMatured)
    ensures Ascending(View(bonds, status))
  {
    if bonds != [] {
      var n := |bonds| - 1;
      ViewIsExact(bonds[..n], status, b);
      var some := View(bonds[..n], status);
      forall i | 0 <= i < |some| ensures some[i].epoch < bonds[n].epoch {
        ViewIsExact(bonds[..n], status, some[i]);
      }
      assert bonds == bonds[..n] + [bonds[n]];
    }
  }

  lemma EpochsDecide(bonds: seq<Bond>)
    requires Ascending(bonds)
    ensures Decides(bonds, Newer())
  {
    forall i, j | 0 <= i < |bonds| && 0 <= j < |bonds| && i != j
      ensures Newer()(bonds[i], bonds[j]) || Newer()(bonds[j], bonds[i])
    {
      assert bonds[i].epoch < bonds[j].epoch || bonds[j].epoch < bonds[i].epoch;
    }
  }

  /** There is one newest-first arrangement of a view, and Sort finds it. */
  lemma OnlyAnswer(bonds: seq<Bond>, status: Status)
    requires Ascending(bonds)
    ensures Answer(View(bonds, status), Newer(), Sort(View(bonds, status), Newer()))
    ensures forall a :: Answer(View(bonds, status), Newer(), a) ==> a == Sort(View(bonds, status), Newer())
  {
    var v := View(bonds, status);
    ViewAscends(bonds, status);
    EpochsDecide(v);
    SortAnswers(v, Newer());
    forall a | Answer(v, Newer(), a) ensures a == Sort(v, Newer()) {
      OneAnswer(v, Newer(), a, Sort(v, Newer()));
    }
  }

  lemma ViewAscends(bonds: seq<Bond>, status: Status)
    requires Ascending(bonds)
    ensures Ascending(View(bonds, status))
  {
    ViewIsExact(bonds, status, Bond(0, 0, false, false));
  }

  /** Walking `offset` by `limit` while hasMore yields each bond of the view exactly once, strictly newest first,
      and nothing else. */
  lemma BondPagesAreLossless(bonds: seq<Bond>, status: Status, limit: nat, answer: seq<Bond>)
    requires Ascending(bonds) && limit > 0 && Answer(View(bonds, status), Newer(), answer)
    ensures Concat(Walk(answer, 0, limit)) == answer && Strict(answer, Newer())
    ensures forall i, j :: 0 <= i < j < |answer| ==> answer[i].epoch > answer[j].epoch
    ensures forall b :: multiset(answer)[b] == if b in bonds && Shows(status, b) then 1 else 0
  {
    var v := View(bonds, status);
    WalkIsLossless(answer, 0, limit);
    ViewAscends(bonds, status);
    EpochsDecide(v);
    DecidesAnswer(v, Newer(), answer);
    forall i, j | 0 <= i < j < |answer| ensures answer[i].epoch > answer[j].epoch { assert Newer()(answer[i], answer[j]); }
    forall b ensures multiset(answer)[b] == if b in bonds && Shows(status, b) then 1 else 0 {
      ViewIsExact(bonds, status, b);
      NoneTwice(v, Newer(), b);
    }
  }

  /** Over a loaded list active and matured partition the default view, which is everything loaded; redeemed is empty. */
  lemma ViewsPartition(bonds: seq<Bond>)
    requires forall i :: 0 <= i < |bonds| ==> !bonds[i].isRedeemed
    ensures View(bonds, All) == bonds && View(bonds, Redeemed) == []
    ensures multiset(View(bonds, Active)) + multiset(View(bonds, Matured)) == multiset(bonds)
    ensures forall b :: !(b in View(bonds, Active) && b in View(bonds, Matured))
  {
    WholeView(bonds);
    SplitView(bonds);
    forall b ensures !(b in View(bonds, Active) && b in View(bonds, Matured)) {
      ViewShows(bonds, Active, b);
      ViewShows(bonds, Matured, b);
    }
  }

  lemma {:induction false} WholeView(bonds: seq<Bond>)
    requires forall i :: 0 <= i < |bonds| ==> !bonds[i].isRedeemed
    ensures View(bonds, All) == bonds && View(bonds, Redeemed) == []
  {
    if bonds != [] {
      WholeView(bonds[..|bonds| - 1]);
    }
  }

  lemma {:induction false} SplitView(bonds: seq<Bond>)
    requires forall i :: 0 <= i < |bonds| ==> !bonds[i].isRedeemed
    ensures multiset(View(bonds, Active)) + multiset(View(bonds, Matured)) == multiset(bonds)
  {
    if bonds != [] {
      var init, last := bonds[..|bonds| - 1], bonds[|bonds| - 1];
      SplitView(init);
      assert bonds == init + [last];
      ViewLast(init, Active, last);
      ViewLast(init, Matured, last);
    }
  }

  lemma ViewLast(init: seq<Bond>, status: Status, last: Bond)
    ensures multiset(View(init + [last], status))
         == multiset(View(init, status)) + (if Shows(status, last) then multiset{last} else multiset{})
  {
    assert (init + [last])[..|init|] == init;
  }

  lemma {:induction false} ViewShows(bonds: seq<Bond>, status: Status, b: Bond)
    ensures b in View(bonds, status) ==> Shows(status, b)
  {
    if bonds != [] { ViewShows(bonds[..|bonds| - 1], status, b); }
  }

  // ---- the service ----

  const CACHE_TTL_MS: nat := 60_000

  function CacheKey(wallet: string, status: Status): string {
    wallet + if status == Redeemed then ":with-redeemed" else ":live"
  }

  /** No two wallets share an entry. */
  lemma CacheKeyInjective(w: string, s: Status, w': string, s': Status)
    requires CacheKey(w, s) == CacheKey(w', s')
    ensures w == w' && (s == Redeemed <==> s' == Redeemed)
  {
    var k := CacheKey(w, s);
    assert k[|k| - 1] == if s == Redeemed then 'd' else 'e';
    assert k[|k| - 1] == if s' == Redeemed then 'd' else 'e';
    assert w == k[..|w|] && w' == k[..|w'|];
  }

  class Service {
    const cache: TtlCache.Cache<seq<Bond>>
    ghost var loads: set<(string, seq<Bond>)>   // what each wallet's loads returned

    /** Whatever is cached for a wallet is the result of a load for that wallet. */
    ghost predicate Valid() reads this, cache {
      && cache.Valid() && cache.ttl == CACHE_TTL_MS
      && (forall w, s :: TtlCache.Latest(cache.ops, CacheKey(w, s)).Some? ==>
            (w, TtlCache.Latest(cache.ops, CacheKey(w, s)).value.0) in loads)
      && (forall x :: x in loads ==> Loaded(x.1))
    }

    constructor ()
      ensures Valid() && fresh(cache) && loads == {} && cache.clock == 0
    {
      cache := new TtlCache.Cache<seq<Bond>>(CACHE_TTL_MS);
      loads := {};
    }

    /** Up to the load: a hit is a load of this wallet, stored less than 60 seconds ago. */
    method Lookup(wallet: string, status: Status, now: nat) returns (hit: Option<seq<Bond>>)
      requires Valid() && cache.clock <= now
      modifies cache
      ensures Valid() && cache.clock == now && loads == old(loads) && cache.ops == old(cache.ops)
      ensures hit == TtlCache.Fresh(cache.ops, CacheKey(wallet, status), CACHE_TTL_MS, now)
      ensures hit.Some? ==> (wallet, hit.value) in loads && Loaded(hit.value)
      ensures hit.Some? ==> exists i: nat :: TtlCache.LastSet(cache.ops, CacheKey(wallet, status), i) && cache.ops[i].value == hit.value
                                             && now < cache.ops[i].at + 60_000
    {
      hit := cache.Get(CacheKey(wallet, status), now);
    }

    /** The load and `cache.set`; other requests may have run since the lookup. */
    method Load(wallet: string, status: Status, chain: Chain, now: nat) returns (bonds: seq<Bond>)
      requires Valid() && cache.clock <= now && chain.month < 12
      modifies this, cache
      ensures Valid() && cache.clock == now && loads == old(loads) + {(wallet, bonds)} && Loaded(bonds)
      ensures TtlCache.Fresh(cache.ops, CacheKey(wallet, status), CACHE_TTL_MS, now) == Some(bonds)
      ensures forall w, s :: CacheKey(w, s) != CacheKey(wallet, status) ==>
                TtlCache.Latest(cache.ops, CacheKey(w, s)) == TtlCache.Latest(old(cache.ops), CacheKey(w, s))
    {
      var _, loaded := LoadAllBondsForWallet(chain);
      bonds := loaded;
      var key := CacheKey(wallet, status);
      cache.Set(key, bonds, now);
      loads := loads + {(wallet, bonds)};
      assert cache.ops[..|cache.ops| - 1] == old(cache.ops);
      forall w, s | TtlCache.Latest(cache.ops, CacheKey(w, s)).Some?
        ensures (w, TtlCache.Latest(cache.ops, CacheKey(w, s)).value.0) in loads
      {
        if CacheKey(w, s) == key { CacheKeyInjective(w, s, wallet, status); }
      }
    }

    /** Filter, sort and slice. The page is cut from the only newest-first arrangement of the view. */
    method Present(bonds: seq<Bond>, status: Status, limit: nat, offset: nat) returns (page: seq<Bond>, total: nat, hasMore: bool)
      requires Loaded(bonds)
      ensures exists a :: Answer(View(bonds, status), Newer(), a)
      ensures forall a :: Answer(View(bonds, status), Newer(), a) ==>
                page == Page(a, offset, limit) && total == |a| && (hasMore <==> HasMore(a, offset, limit))
      ensures status == Redeemed ==> page == [] && total == 0 && !hasMore
    {
      var filtered := Filter(bonds, status);
      OnlyAnswer(bonds, status);
      WholeView(bonds);
      filtered := Sort(filtered, Newer());
      total := |filtered|;
      page := Page(filtered, offset, limit);
      hasMore := offset + |page| < total;
    }

    method Filter(bonds: seq<Bond>, status: Status) returns (filtered: seq<Bond>)
      ensures filtered == View(bonds, status)
    {
      filtered := [];
      var i := 0;
      while i < |bonds|
        invariant i <= |bonds| && filtered == View(bonds[..i], status)
      {
        assert bonds[..i + 1][..i] == bonds[..i];
        if Shows(status, bonds[i]) {
          filtered := filtered + [bonds[i]];
        }
        i := i + 1;
      }
      assert bonds[..i] == bonds;
    }
  }
}
