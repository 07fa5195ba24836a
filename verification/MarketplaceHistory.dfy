/** Where the rows of the listings and purchases tables come from, read off the requests and their receipts, and what each
    request is answered (src/routes/marketplace.ts:185-307, src/services/marketplace.ts:43-275). */
module MarketplaceHistory {
  import opened Basics
  import opened Marketplace
  import opened RowKeys

  /** The label a request began with. */
  function BeganWith(ls: seq<Label>, r: nat): Option<Label> {
    if ls == [] then None else
      var before, l := BeganWith(ls[..|ls| - 1], r), ls[|ls| - 1];
      if before.None? && (l.ListStart? || l.BuyStart?) && l.r == r then Some(l) else before
  }

  /** Every request is the one it began as, until it is answered. */
  ghost predicate Begun(ls: seq<Label>, s: State, r: nat) {
    && (r in s.requests <==> BeganWith(ls, r).Some?)
    && (r in s.requests && s.requests[r].ToList? ==> BeganWith(ls, r) == Some(ListStart(r, s.requests[r].body)))
    && (r in s.requests && s.requests[r].ToBuy? ==> BeganWith(ls, r) == Some(BuyStart(r, s.requests[r].order)))
  }

  /** A request begins with its label, and from then on is what it was until it is answered. */
  predicate Moves(s: State, l: Label, s': State, r: nat) {
    && (r in s.requests ==> r in s'.requests && (s'.requests[r] == s.requests[r] || s'.requests[r].Answered?))
    && (r !in s.requests && (l.ListStart? || l.BuyStart?) && l.r == r ==> r in s'.requests)
    && (r !in s.requests && r in s'.requests ==>
          && (l.ListStart? || l.BuyStart?) && l.r == r
          && (s'.requests[r].ToList? ==> l == ListStart(r, s'.requests[r].body))
          && (s'.requests[r].ToBuy? ==> l == BuyStart(r, s'.requests[r].order)))
  }

  lemma RequestMoves(s: State, market: string, l: Label, r: nat)
    ensures Moves(s, l, Apply(s, market, l), r)
  {
    match l
    case ListStart(_, _) =>
    case ListCommit(_, _, _) =>
    case BuyStart(_, _) =>
    case BuyCommit(_, _) =>
  }

  lemma {:induction false} AlwaysBegun(market: string, ls: seq<Label>, r: nat)
    ensures Begun(ls, Exec(market, ls), r)
  {
    if ls != [] {
      AlwaysBegun(market, ls[..|ls| - 1], r);
      RequestMoves(Exec(market, ls[..|ls| - 1]), market, ls[|ls| - 1], r);
    }
  }

  // ---- where a listing comes from ----

  /** Step n committed the listing: the body its request began with, and a successful call of the marketplace by the
      seller whose first Listed log is the row, above the floor read then. */
  ghost predicate ListedAt(market: string, ls: seq<Label>, n: nat, row: Listing) {
    && n < |ls| && ls[n].ListCommit?
    && BeganWith(ls[..n], ls[n].r).Some? && BeganWith(ls[..n], ls[n].r).value.ListStart?
    && var body, rpc := BeganWith(ls[..n], ls[n].r).value.lb, ls[n].rpc;
       && rpc.Found? && rpc.receipt.ok && rpc.receipt.to == market && rpc.receipt.from == row.seller
       && Lists(market, body, rpc.receipt.logs, row)
       && Dec(row.bond) == body.bond && Dec(row.amount) == body.amount && Dec(row.total) == body.total
       && row.amount > 0
       && row.total >= (if ls[n].floor.Some? then ls[n].floor.value else 1_000_000) * row.amount
  }

  ghost predicate HasListing(market: string, ls: seq<Label>, row: Listing) {
    exists n: nat :: ListedAt(market, ls, n, row)
  }

  lemma ListedStays(market: string, init: seq<Label>, l: Label, row: Listing, row': Listing)
    requires HasListing(market, init, row) && SameTerms(row, row')
    ensures HasListing(market, init + [l], row')
  {
    var n: nat :| ListedAt(market, init, n, row);
    var ls := init + [l];
    assert ls[..n] == init[..n] && ls[n] == init[n];
    var body, logs := BeganWith(ls[..n], ls[n].r).value.lb, ls[n].rpc.receipt.logs;
    var i: nat :| FirstListedAt(market, logs, i) &&
      row.id == logs[i].id && row.bond == logs[i].epoch && row.amount == logs[i].amount && row.total == logs[i].price
      && logs[i].seller == body.seller && row.seller == body.seller && row.tx == body.tx;
    assert row.id == row'.id && row.seller == row'.seller && row.bond == row'.bond && row.amount == row'.amount
           && row.total == row'.total && row.tx == row'.tx;
    assert Lists(market, body, logs, row');
    assert ListedAt(market, ls, n, row');
  }

  /** A /list commit adds at most one row, and says why it adds none. */
  predicate ListAnswered(s: State, s': State, r: nat, v: Result<Listing, string>) {
    && r in s'.requests
    && (v.Err? ==> s'.requests[r] == Answered(v.error) && s'.db == s.db)
    && (v.Ok? && (exists k :: 0 <= k < |s.db.listings| && (s.db.listings[k].id == v.value.id || s.db.listings[k].tx == v.value.tx))
        ==> s'.requests[r] == Answered("duplicate_listing") && s'.db == s.db)
    && (v.Ok? && (forall k :: 0 <= k < |s.db.listings| ==> s.db.listings[k].id != v.value.id && s.db.listings[k].tx != v.value.tx)
        ==> s'.requests[r] == Answered("ok") && s'.db == Tables(s.db.listings + [v.value], s.db.purchases))
  }

  lemma ListStep(s: State, market: string, r: nat, rpc: Rpc, floor: Option<nat>)
    requires r in s.requests && s.requests[r].ToList?
    ensures ListAnswered(s, Apply(s, market, ListCommit(r, rpc, floor)), r, VerifyListing(market, s.requests[r].body, rpc, floor))
  {
  }

  /** Any other step keeps the rows, status aside. */
  lemma ListingsMove(s: State, market: string, l: Label)
    requires Inv(s) && !l.ListCommit?
    ensures var s' := Apply(s, market, l);
            |s'.db.listings| == |s.db.listings| && forall k :: 0 <= k < |s.db.listings| ==> SameTerms(s.db.listings[k], s'.db.listings[k])
  {
    StepKeepsInv(s, market, l);
  }

  lemma CommitIsListed(market: string, init: seq<Label>, l: Label)
    requires l.ListCommit?
    ensures var s, s' := Exec(market, init), Exec(market, init + [l]);
            s'.db.listings == s.db.listings ||
            (|s'.db.listings| == |s.db.listings| + 1 && s.db.listings <= s'.db.listings
             && HasListing(market, init + [l], s'.db.listings[|s.db.listings|]))
  {
    var s, ls := Exec(market, init), init + [l];
    assert ls[..|ls| - 1] == init;
    AlwaysBegun(market, init, l.r);
    if l.r in s.requests && s.requests[l.r].ToList? {
      ListStep(s, market, l.r, l.rpc, l.floor);
      ListingAccepted(market, s.requests[l.r].body, l.rpc, l.floor);
      var v := VerifyListing(market, s.requests[l.r].body, l.rpc, l.floor);
      if v.Ok? { assert ListedAt(market, ls, |init|, v.value); }
    }
  }

  /** Over every interleaving, each stored listing was recorded by some /list from the first Listed log of its receipt: id,
      bond, amount and total are that log's, seller and transaction the body's. */
  lemma {:induction false} ListingsHaveReceipts(market: string, ls: seq<Label>, k: nat)
    requires k < |Exec(market, ls).db.listings|
    ensures HasListing(market, ls, Exec(market, ls).db.listings[k])
  {
    var init, l := ls[..|ls| - 1], ls[|ls| - 1];
    assert ls == init + [l];
    var s := Exec(market, init);
    AlwaysInv(market, init);
    if l.ListCommit? { CommitIsListed(market, init, l); } else { ListingsMove(s, market, l); }
    if k < |s.db.listings| {
      ListingsHaveReceipts(market, init, k);
      ListedStays(market, init, l, s.db.listings[k], Exec(market, ls).db.listings[k]);
    }
  }

  // ---- what /buy finds ----

  /** The answer of /buy before its await, by what the tables hold. */
  predicate BuyAnswered(s: State, s': State, r: nat, bb: BuyBody) {
    var used := exists j :: 0 <= j < |s.db.purchases| && s.db.purchases[j].tx == bb.tx;
    && s'.db == s.db && r in s'.requests
    && (used ==> s'.requests[r] == Answered("duplicate_purchase"))
    && (!used && (forall k :: 0 <= k < |s.db.listings| ==> Dec(s.db.listings[k].id) != bb.listing) ==>
          s'.requests[r] == Answered("listing_not_found"))
    && (!used ==> forall k :: 0 <= k < |s.db.listings| && Dec(s.db.listings[k].id) == bb.listing ==>
          s'.requests[r] == if s.db.listings[k].status.Executed? then Answered("listing_not_active") else ToBuy(bb, s.db.listings[k]))
  }

  lemma BuyStep(s: State, market: string, r: nat, bb: BuyBody)
    requires Unique(s.db) && r !in s.requests
    ensures BuyAnswered(s, Apply(s, market, BuyStart(r, bb)), r, bb)
  {
    forall k, m | 0 <= k < |s.db.listings| && 0 <= m < |s.db.listings| && Dec(s.db.listings[k].id) == bb.listing && Dec(s.db.listings[m].id) == bb.listing
      ensures k == m
    {
      DecInjective(s.db.listings[k].id, s.db.listings[m].id);
    }
  }

  /** Over every interleaving: what /buy answers at once, and the row it goes on with. */
  lemma BuyFinds(market: string, ls: seq<Label>, r: nat, bb: BuyBody)
    requires BeganWith(ls, r).None?
    ensures BuyAnswered(Exec(market, ls), Exec(market, ls + [BuyStart(r, bb)]), r, bb)
  {
    AlwaysInv(market, ls);
    AlwaysBegun(market, ls, r);
    assert (ls + [BuyStart(r, bb)])[..|ls|] == ls;
    BuyStep(Exec(market, ls), market, r, bb);
  }

  /** Over every interleaving, once a /list is answered "ok" the id of its receipt's first Listed log is the id of a stored
      listing, whatever happens next: a /buy of that id never hears that there is no such listing. */
  lemma CommittedIsFindable(market: string, ls: seq<Label>, l: Label, more: seq<Label>, i: nat, r: nat, bb: BuyBody)
    requires l.ListCommit? && l.r in Exec(market, ls).requests && Exec(market, ls).requests[l.r].ToList?
    requires Exec(market, ls + [l]).requests[l.r] == Answered("ok")
    requires l.rpc.Found? && FirstListedAt(market, l.rpc.receipt.logs, i)
    requires BeganWith(ls + [l] + more, r).None? && bb.listing == Dec(l.rpc.receipt.logs[i].id)
    ensures exists k :: 0 <= k < |Exec(market, ls + [l] + more).db.listings|
                        && Exec(market, ls + [l] + more).db.listings[k].id == l.rpc.receipt.logs[i].id
    ensures r in Exec(market, ls + [l] + more + [BuyStart(r, bb)]).requests
    ensures Exec(market, ls + [l] + more + [BuyStart(r, bb)]).requests[r] != Answered("listing_not_found")
  {
    CommitStoresId(market, ls, l, i);
    IdStays(market, ls + [l], more, l.rpc.receipt.logs[i].id);
    BuyFinds(market, ls + [l] + more, r, bb);
  }

  ghost predicate Stored(db: Tables, id: nat) {
    exists k :: 0 <= k < |db.listings| && db.listings[k].id == id
  }

  lemma CommitStoresId(market: string, ls: seq<Label>, l: Label, i: nat)
    requires l.ListCommit? && l.r in Exec(market, ls).requests && Exec(market, ls).requests[l.r].ToList?
    requires Exec(market, ls + [l]).requests[l.r] == Answered("ok")
    requires l.rpc.Found? && FirstListedAt(market, l.rpc.receipt.logs, i)
    ensures Stored(Exec(market, ls + [l]).db, l.rpc.receipt.logs[i].id)
  {
    var s := Exec(market, ls);
    assert (ls + [l])[..|ls|] == ls;
    var v := VerifyListing(market, s.requests[l.r].body, l.rpc, l.floor);
    ListStep(s, market, l.r, l.rpc, l.floor);
    ListingAccepted(market, s.requests[l.r].body, l.rpc, l.floor);
    CodesAreNotOk(market, s.requests[l.r].body, l.rpc, l.floor);
    var j: nat :| FirstListedAt(market, l.rpc.receipt.logs, j) && v.value.id == l.rpc.receipt.logs[j].id;
    assert i == j by {
      assert !(i < j) && !(j < i);
    }
    assert Exec(market, ls + [l]).db.listings[|s.db.listings|].id == l.rpc.receipt.logs[i].id;
  }

  lemma {:induction false} IdStays(market: string, ls: seq<Label>, more: seq<Label>, id: nat)
    requires Stored(Exec(market, ls).db, id)
    ensures Stored(Exec(market, ls + more).db, id)
  {
    if more == [] {
      assert ls + more == ls;
    } else {
      var m := |more| - 1;
      assert (ls + more)[..|ls + more| - 1] == ls + more[..m];
      IdStays(market, ls, more[..m], id);
      var db := Exec(market, ls + more[..m]).db;
      var k :| 0 <= k < |db.listings| && db.listings[k].id == id;
      StatusOnlyAdvances(market, ls + more[..m], more[m]);
      assert SameTerms(db.listings[k], Exec(market, ls + more).db.listings[k]);
    }
  }

  // ---- the codes of a refused request ----

  lemma CodesAreNotOk(market: string, body: ListBody, rpc: Rpc, floor: Option<nat>)
    ensures VerifyListing(market, body, rpc, floor) != Err("ok")
  {
  }

  /** The receipt is a successful call of the marketplace. */
  predicate Calls(rpc: Rpc, market: string) {
    rpc.Found? && rpc.receipt.ok && rpc.receipt.to == market
  }

  /** The codes both verifiers give before they look at the sender or an event. */
  predicate ReceiptCode(v: Option<string>, rpc: Rpc, market: string) {
    && (rpc.RpcError? <==> v == Some("rpc_error"))
    && (rpc.NotFound? <==> v == Some("tx_not_found"))
    && (rpc.Found? && !rpc.receipt.ok <==> v == Some("tx_reverted"))
    && (rpc.Found? && rpc.receipt.ok && rpc.receipt.to != market <==> v == Some("tx_not_marketplace"))
  }

  function Code<T>(v: Result<T, string>): Option<string> {
    if v.Err? then Some(v.error) else None
  }

  /** Why a listing is refused, in the order the checks are made. */
  lemma ListingCodes(market: string, body: ListBody, rpc: Rpc, floor: Option<nat>, i: nat)
    requires Calls(rpc, market) && rpc.receipt.from == body.seller && FirstListedAt(market, rpc.receipt.logs, i)
    ensures var ev, code := rpc.receipt.logs[i], Code(VerifyListing(market, body, rpc, floor));
            code ==
              if ev.seller != body.seller then Some("seller_mismatch")
              else if Dec(ev.epoch) != body.bond then Some("bond_id_mismatch")
              else if Dec(ev.amount) != body.amount then Some("amount_mismatch")
              else if Dec(ev.price) != body.total then Some("price_mismatch")
              else if ev.amount == 0 then Some("invalid_amount")
              else if ev.price < (if floor.Some? then floor.value else 1_000_000) * ev.amount then Some("price_below_min")
              else None
  {
    var logs := rpc.receipt.logs;
    FirstListedFound(market, logs);
    var j: nat :| FirstListedAt(market, logs, j) && FirstListed(market, logs).value == logs[j];
    assert j == i by {
      assert !(i < j) && !(j < i);
    }
    FloorOfTexts(logs[i].price, logs[i].amount, MinPrice(floor));
  }

  lemma ListingCodesBefore(market: string, body: ListBody, rpc: Rpc, floor: Option<nat>)
    ensures ReceiptCode(Code(VerifyListing(market, body, rpc, floor)), rpc, market)
    ensures Calls(rpc, market) && rpc.receipt.from != body.seller ==> VerifyListing(market, body, rpc, floor) == Err("seller_mismatch")
    ensures Calls(rpc, market) && rpc.receipt.from == body.seller ==>
              (VerifyListing(market, body, rpc, floor) == Err("event_missing")
               <==> forall i :: 0 <= i < |rpc.receipt.logs| ==> !IsListed(market, rpc.receipt.logs[i]))
  {
    if rpc.Found? { FirstListedFound(market, rpc.receipt.logs); }
  }

  /** Why a buy is refused, in the order the checks are made. */
  lemma BuyCodes(market: string, bb: BuyBody, row: Listing, rpc: Rpc, i: nat)
    requires Calls(rpc, market) && rpc.receipt.from == bb.buyer && FirstBoughtAt(market, rpc.receipt.logs, i)
    ensures var ev, code := rpc.receipt.logs[i], Code(VerifyBuy(market, bb, row, rpc));
            code ==
              if Dec(ev.id) != bb.listing then Some("listing_id_mismatch")
              else if ev.buyer != bb.buyer then Some("buyer_mismatch")
              else if ev.seller != row.seller then Some("seller_mismatch")
              else if bb.amount != Dec(row.amount) then Some("amount_mismatch")
              else if bb.paid != Dec(ev.price + ev.buyerFee) then Some("price_mismatch")
              else None
  {
    var logs := rpc.receipt.logs;
    FirstBoughtFound(market, logs);
    var j: nat :| FirstBoughtAt(market, logs, j) && FirstBought(market, logs).value == logs[j];
    assert j == i by {
      assert !(i < j) && !(j < i);
    }
  }

  lemma BuyCodesBefore(market: string, bb: BuyBody, row: Listing, rpc: Rpc)
    ensures ReceiptCode(Code(VerifyBuy(market, bb, row, rpc)), rpc, market)
    ensures Calls(rpc, market) && rpc.receipt.from != bb.buyer ==> VerifyBuy(market, bb, row, rpc) == Err("buyer_mismatch")
    ensures Calls(rpc, market) && rpc.receipt.from == bb.buyer ==>
              (VerifyBuy(market, bb, row, rpc) == Err("event_missing")
               <==> forall i :: 0 <= i < |rpc.receipt.logs| ==> !IsBought(market, rpc.receipt.logs[i]))
  {
    if rpc.Found? { FirstBoughtFound(market, rpc.receipt.logs); }
  }

  /** Over every interleaving, /list is turned away before its await exactly when its transaction is already stored. */
  lemma ListFinds(market: string, ls: seq<Label>, r: nat, lb: ListBody)
    requires BeganWith(ls, r).None?
    ensures var s, s' := Exec(market, ls), Exec(market, ls + [ListStart(r, lb)]);
            && s'.db == s.db && r in s'.requests
            && s'.requests[r] == if exists k :: 0 <= k < |s.db.listings| && s.db.listings[k].tx == lb.tx
                                 then Answered("duplicate_listing") else ToList(lb)
  {
    AlwaysBegun(market, ls, r);
    assert (ls + [ListStart(r, lb)])[..|ls|] == ls;
  }

  // ---- where a purchase comes from ----

  /** Step n committed the purchase: a successful call of the marketplace by the buyer whose first Bought log is the row. */
  ghost predicate BoughtAt(market: string, ls: seq<Label>, n: nat, p: Purchase) {
    && n < |ls| && ls[n].BuyCommit?
    && BeganWith(ls[..n], ls[n].r).Some? && BeganWith(ls[..n], ls[n].r).value.BuyStart?
    && var rpc := ls[n].rpc;
       && rpc.Found? && rpc.receipt.ok && rpc.receipt.to == market && rpc.receipt.from == p.buyer
       && Buys(market, BeganWith(ls[..n], ls[n].r).value.bb, rpc.receipt.logs, p)
  }

  ghost predicate HasPurchase(market: string, ls: seq<Label>, p: Purchase) {
    exists n: nat :: BoughtAt(market, ls, n, p)
  }

  /** A /buy commit adds one purchase and executes its listing alone, or changes nothing and says why. */
  predicate BuyDone(s: State, s': State, r: nat, v: Result<Purchase, string>) {
    && r in s'.requests
    && (s'.requests[r] == Answered("ok") <==>
          v.Ok? && (forall j :: 0 <= j < |s.db.purchases| ==> s.db.purchases[j].tx != v.value.tx)
          && exists k :: 0 <= k < |s.db.listings| && s.db.listings[k].id == v.value.listing && s.db.listings[k].status.Active?)
    && (s'.requests[r] != Answered("ok") ==> s'.db == s.db)
    && (s'.requests[r] == Answered("ok") ==>
          && s'.db.purchases == s.db.purchases + [v.value] && |s'.db.listings| == |s.db.listings|
          && forall k :: 0 <= k < |s.db.listings| ==>
               s'.db.listings[k] == if s.db.listings[k].id == v.value.listing then s.db.listings[k].(status := Executed) else s.db.listings[k])
    && (v.Err? ==> s'.requests[r] == Answered(v.error))
    && (v.Ok? && (exists j :: 0 <= j < |s.db.purchases| && s.db.purchases[j].tx == v.value.tx) ==> s'.requests[r] == Answered("duplicate_purchase"))
    && (v.Ok? && (forall j :: 0 <= j < |s.db.purchases| ==> s.db.purchases[j].tx != v.value.tx)
        && (exists k :: 0 <= k < |s.db.listings| && s.db.listings[k].id == v.value.listing && s.db.listings[k].status.Executed?)
        ==> s'.requests[r] == Answered("listing_not_active"))
  }

  lemma BuyEnds(s: State, market: string, r: nat, rpc: Rpc)
    requires Unique(s.db) && r in s.requests && s.requests[r].ToBuy?
    ensures BuyDone(s, Apply(s, market, BuyCommit(r, rpc)), r, VerifyBuy(market, s.requests[r].order, s.requests[r].row, rpc))
  {
  }

  lemma PurchasesMove(s: State, market: string, l: Label)
    requires !l.BuyCommit?
    ensures Apply(s, market, l).db.purchases == s.db.purchases
  {
  }

  lemma BoughtStays(market: string, init: seq<Label>, l: Label, p: Purchase)
    requires HasPurchase(market, init, p)
    ensures HasPurchase(market, init + [l], p)
  {
    var n: nat :| BoughtAt(market, init, n, p);
    assert (init + [l])[..n] == init[..n] && (init + [l])[n] == init[n];
    assert BoughtAt(market, init + [l], n, p);
  }

  lemma CommitIsBought(market: string, init: seq<Label>, l: Label)
    requires l.BuyCommit?
    ensures var s, s' := Exec(market, init), Exec(market, init + [l]);
            s'.db.purchases == s.db.purchases ||
            (|s'.db.purchases| == |s.db.purchases| + 1 && s.db.purchases <= s'.db.purchases
             && HasPurchase(market, init + [l], s'.db.purchases[|s.db.purchases|]))
  {
    var s, ls := Exec(market, init), init + [l];
    assert ls[..|ls| - 1] == init;
    AlwaysBegun(market, init, l.r);
    AlwaysInv(market, init);
    if l.r in s.requests && s.requests[l.r].ToBuy? {
      var bb, row := s.requests[l.r].order, s.requests[l.r].row;
      BuyEnds(s, market, l.r, l.rpc);
      BuyAccepted(market, bb, row, l.rpc);
      var v := VerifyBuy(market, bb, row, l.rpc);
      if v.Ok? { assert BoughtAt(market, ls, |init|, v.value); }
    }
  }

  /** Over every interleaving, each stored purchase was recorded by some /buy from the first Bought log of its receipt:
      listing, buyer and seller are that log's, the sum paid is its price plus its buyer fee, the transaction is the
      body's. */
  lemma {:induction false} PurchasesHaveReceipts(market: string, ls: seq<Label>, j: nat)
    requires j < |Exec(market, ls).db.purchases|
    ensures HasPurchase(market, ls, Exec(market, ls).db.purchases[j])
  {
    var init, l := ls[..|ls| - 1], ls[|ls| - 1];
    assert ls == init + [l];
    var s := Exec(market, init);
    if l.BuyCommit? { CommitIsBought(market, init, l); } else { PurchasesMove(s, market, l); }
    if j < |s.db.purchases| {
      PurchasesHaveReceipts(market, init, j);
      BoughtStays(market, init, l, s.db.purchases[j]);
    }
  }
}
