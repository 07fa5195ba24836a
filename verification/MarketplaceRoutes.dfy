/** The handlers of POST /list and POST /buy themselves, over mutable tables; every method is proved against
    `Marketplace`. A handler is two methods, before and after its await. */
module MarketplaceRoutes {
  import opened Basics
  import opened Marketplace
  import opened RowKeys

  /** verifyListing, once the receipt and the floor have been read. */
  method VerifyList(market: string, body: ListBody, rpc: Rpc, floor: Option<nat>) returns (v: Result<Listing, string>)
    ensures v == VerifyListing(market, body, rpc, floor)
  {
    match rpc {
      case RpcError => return Err("rpc_error");
      case NotFound => return Err("tx_not_found");
      case Found(receipt) =>
        if !receipt.ok { return Err("tx_reverted"); }
        if receipt.to != market { return Err("tx_not_marketplace"); }
        if receipt.from != body.seller { return Err("seller_mismatch"); }
        var found := FindListed(market, receipt.logs);
        FirstListedFound(market, receipt.logs);
        if found.None? { return Err("event_missing"); }
        var ev := found.value;
        if ev.seller != body.seller { return Err("seller_mismatch"); }
        if Dec(ev.epoch) != body.bond { return Err("bond_id_mismatch"); }
        if Dec(ev.amount) != body.amount { return Err("amount_mismatch"); }
        if Dec(ev.price) != body.total { return Err("price_mismatch"); }
        if Value(body.amount) == 0 { return Err("invalid_amount"); }
        var minPricePerUnit := if floor.Some? then floor.value else 1_000_000;
        if Value(body.total) / Value(body.amount) < minPricePerUnit { return Err("price_below_min"); }
        return Ok(Listing(ev.id, body.seller, ev.epoch, ev.amount, ev.price, body.tx, Active));
    }
  }

  /** verifyBuy, once the receipt has been read; `row` is the listing found before the await. */
  method VerifyPurchase(market: string, body: BuyBody, row: Listing, rpc: Rpc) returns (v: Result<Purchase, string>)
    ensures v == VerifyBuy(market, body, row, rpc)
  {
    match rpc {
      case RpcError => return Err("rpc_error");
      case NotFound => return Err("tx_not_found");
      case Found(receipt) =>
        if !receipt.ok { return Err("tx_reverted"); }
        if receipt.to != market { return Err("tx_not_marketplace"); }
        if receipt.from != body.buyer { return Err("buyer_mismatch"); }
        var found := FindBought(market, receipt.logs);
        FirstBoughtFound(market, receipt.logs);
        if found.None? { return Err("event_missing"); }
        var ev := found.value;
        if Dec(ev.id) != body.listing { return Err("listing_id_mismatch"); }
        if ev.buyer != body.buyer { return Err("buyer_mismatch"); }
        if ev.seller != row.seller { return Err("seller_mismatch"); }
        if body.amount != Dec(row.amount) { return Err("amount_mismatch"); }
        if body.paid != Dec(ev.price + ev.buyerFee) { return Err("price_mismatch"); }
        return Ok(Purchase(ev.id, body.buyer, row.seller, row.bond, row.amount, ev.price + ev.buyerFee, body.tx));
    }
  }

  class Routes {
    const market: string
    const store: Store
    ghost var requests: map<nat, Request>
    ghost var floors: map<nat, nat>

    ghost function View(): State reads this, store {
      State(store.View(), requests, floors)
    }

    constructor (market: string)
      ensures View() == Initial && this.market == market && fresh(store)
    {
      this.market := market;
      store := new Store();
      requests, floors := map[], map[];
    }

    /** POST /list up to verifyListing; an early answer, or None when the handler goes on to await. */
    method ListBegin(ghost r: nat, body: ListBody) returns (early: Option<string>)
      requires r !in requests
      modifies this
      ensures View() == Apply(old(View()), market, ListStart(r, body))
      ensures requests[r] == if early.Some? then Answered(early.value) else ToList(body)
    {
      if ListingTxUsed(store.listings, body.tx) {
        requests := requests[r := Answered("duplicate_listing")];
        return Some("duplicate_listing");
      }
      requests := requests[r := ToList(body)];
      return None;
    }

    /** The rest of POST /list: verify, insert, map a constraint failure. */
    method ListEnd(ghost r: nat, body: ListBody, rpc: Rpc, floor: Option<nat>) returns (code: string)
      requires r in requests && requests[r] == ToList(body)
      modifies this, store
      ensures View() == Apply(old(View()), market, ListCommit(r, rpc, floor))
      ensures requests[r] == Answered(code)
    {
      var verified := VerifyList(market, body, rpc, floor);
      if verified.Err? {
        code := verified.error;
      } else {
        var row := store.RecordListing(verified.value);
        if row.Err? {
          code := row.error;
        } else {
          code := "ok";
          floors := floors[verified.value.id := MinPrice(floor)];
        }
      }
      requests := requests[r := Answered(code)];
    }

    /** POST /buy up to verifyBuy; either an early answer or the listing row carried over the await. */
    method BuyBegin(ghost r: nat, body: BuyBody) returns (next: Result<Listing, string>)
      requires r !in requests
      modifies this
      ensures View() == Apply(old(View()), market, BuyStart(r, body))
      ensures requests[r] == if next.Err? then Answered(next.error) else ToBuy(body, next.value)
    {
      next := Err("duplicate_purchase");
      if !PurchaseTxUsed(store.purchases, body.tx) {
        var listing := store.GetListing(body.listing);
        if listing.None? {
          next := Err("listing_not_found");
        } else if !listing.value.status.Active? {
          next := Err("listing_not_active");
        } else {
          next := Ok(listing.value);
        }
      }
      requests := requests[r := if next.Err? then Answered(next.error) else ToBuy(body, next.value)];
    }

    /** The rest of POST /buy: verify against the carried row, run the transaction, map its failures. */
    method BuyEnd(ghost r: nat, body: BuyBody, row: Listing, rpc: Rpc) returns (code: string)
      requires r in requests && requests[r] == ToBuy(body, row)
      modifies this, store
      ensures View() == Apply(old(View()), market, BuyCommit(r, rpc))
      ensures requests[r] == Answered(code)
    {
      var verified := VerifyPurchase(market, body, row, rpc);
      if verified.Err? {
        code := verified.error;
      } else {
        var done := store.RecordPurchaseAndFinalizeListing(verified.value);
        code := if done.Err? then done.error else "ok";
      }
      requests := requests[r := Answered(code)];
    }
  }
}
