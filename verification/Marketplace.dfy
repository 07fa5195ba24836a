/** POST /list and POST /buy of src/routes/marketplace.ts as check-await-commit requests over the listings and
    purchases tables of src/db/database.ts, with verifyListing and verifyBuy of src/services/marketplace.ts. */
module Marketplace {
  import opened Basics
  import opened RowKeys

  const DEFAULT_MIN_PRICE: nat := 1_000_000

  datatype Status = Active | Executed

  datatype Listing = Listing(id: nat, seller: string, bond: nat, amount: nat, total: nat, tx: string, status: Status)

  datatype Purchase = Purchase(listing: nat, buyer: string, seller: string, bond: nat, amount: nat, paid: nat, tx: string)

  // ---- receipts ----

  datatype Log =
    | Listed(address: string, id: nat, seller: string, epoch: nat, amount: nat, price: nat)
    | Bought(address: string, id: nat, buyer: string, seller: string, price: nat, buyerFee: nat)
    | Other

  datatype Receipt = Receipt(ok: bool, to: string, from: string, logs: seq<Log>)

  /** getTransactionReceipt rejects, finds nothing, or finds a receipt. */
  datatype Rpc = RpcError | NotFound | Found(receipt: Receipt)

  /** A body field that passed the schema: one or more decimal digits, leading zeros allowed. */
  type Digits = s: string | IsDigits(s) witness "0"

  predicate IsDigits(s: string) {
    s != "" && forall i :: 0 <= i < |s| ==> '0' <= s[i] <= '9'
  }

  datatype ListBody = ListBody(tx: string, seller: string, bond: Digits, amount: Digits, total: Digits)

  datatype BuyBody = BuyBody(tx: string, listing: Digits, buyer: string, amount: Digits, paid: Digits)

  function FirstListed(market: string, logs: seq<Log>): Option<Log> {
    if logs == [] then None
    else if logs[0].Listed? && logs[0].address == market then Some(logs[0])
    else FirstListed(market, logs[1..])
  }

  function FirstBought(market: string, logs: seq<Log>): Option<Log> {
    if logs == [] then None
    else if logs[0].Bought? && logs[0].address == market then Some(logs[0])
    else FirstBought(market, logs[1..])
  }

  predicate IsListed(market: string, l: Log) {
    l.Listed? && l.address == market
  }

  predicate IsBought(market: string, l: Log) {
    l.Bought? && l.address == market
  }

  /** Log i is the marketplace's first Listed (or Bought) log of the receipt. */
  predicate FirstListedAt(market: string, logs: seq<Log>, i: nat) {
    i < |logs| && IsListed(market, logs[i]) && forall j :: 0 <= j < i ==> !IsListed(market, logs[j])
  }

  predicate FirstBoughtAt(market: string, logs: seq<Log>, i: nat) {
    i < |logs| && IsBought(market, logs[i]) && forall j :: 0 <= j < i ==> !IsBought(market, logs[j])
  }

  lemma {:induction false} FirstListedFound(market: string, logs: seq<Log>)
    ensures var r := FirstListed(market, logs);
            && (r.Some? ==> r.value.Listed? && exists i: nat :: FirstListedAt(market, logs, i) && r.value == logs[i])
            && (r.None? ==> forall i :: 0 <= i < |logs| ==> !IsListed(market, logs[i]))
  {
    if logs != [] && !IsListed(market, logs[0]) {
      var rest := logs[1..];
      FirstListedFound(market, rest);
      assert forall i :: 0 < i < |logs| ==> logs[i] == rest[i - 1];
      if FirstListed(market, rest).Some? {
        var i: nat :| FirstListedAt(market, rest, i) && FirstListed(market, rest).value == rest[i];
        assert logs[i + 1] == rest[i] && forall j :: 0 < j < i + 1 ==> logs[j] == rest[j - 1];
        assert FirstListedAt(market, logs, i + 1);
      }
    } else if logs != [] {
      assert FirstListedAt(market, logs, 0);
    }
  }

  lemma {:induction false} FirstBoughtFound(market: string, logs: seq<Log>)
    ensures var r := FirstBought(market, logs);
            && (r.Some? ==> r.value.Bought? && exists i: nat :: FirstBoughtAt(market, logs, i) && r.value == logs[i])
            && (r.None? ==> forall i :: 0 <= i < |logs| ==> !IsBought(market, logs[i]))
  {
    if logs != [] && !IsBought(market, logs[0]) {
      var rest := logs[1..];
      FirstBoughtFound(market, rest);
      assert forall i :: 0 < i < |logs| ==> logs[i] == rest[i - 1];
      if FirstBought(market, rest).Some? {
        var i: nat :| FirstBoughtAt(market, rest, i) && FirstBought(market, rest).value == rest[i];
        assert logs[i + 1] == rest[i] && forall j :: 0 < j < i + 1 ==> logs[j] == rest[j - 1];
        assert FirstBoughtAt(market, logs, i + 1);
      }
    } else if logs != [] {
      assert FirstBoughtAt(market, logs, 0);
    }
  }

  /** The receipt checks both verifiers start with. */
  function CheckReceipt(rpc: Rpc, market: string, sender: string, mismatch: string): Result<Receipt, string> {
    match rpc
    case RpcError => Err("rpc_error")
    case NotFound => Err("tx_not_found")
    case Found(r) =>
      if !r.ok then Err("tx_reverted")
      else if r.to != market then Err("tx_not_marketplace")
      else if r.from != sender then Err(mismatch)
      else Ok(r)
  }

  /** `floor` is minPricePerUnit(), None when that call rejects. The result is the row to insert. */
  function VerifyListing(market: string, body: ListBody, rpc: Rpc, floor: Option<nat>): Result<Listing, string> {
    var checked := CheckReceipt(rpc, market, body.seller, "seller_mismatch");
    if checked.Err? then Err(checked.error) else
    var found := FirstListed(market, checked.value.logs);
    if found.None? then Err("event_missing") else
    var ev := found.value;
    if !ev.Listed? then Err("event_missing") else
    if ev.seller != body.seller then Err("seller_mismatch") else
    if Dec(ev.epoch) != body.bond then Err("bond_id_mismatch") else
    if Dec(ev.amount) != body.amount then Err("amount_mismatch") else
    if Dec(ev.price) != body.total then Err("price_mismatch") else
    if Value(body.amount) == 0 then Err("invalid_amount") else
    if Value(body.total) / Value(body.amount) < MinPrice(floor) then Err("price_below_min") else
    Ok(Listing(ev.id, body.seller, ev.epoch, ev.amount, ev.price, body.tx, Active))
  }

  function MinPrice(floor: Option<nat>): nat {
    if floor.Some? then floor.value else DEFAULT_MIN_PRICE
  }

  lemma FloorByDivision(total: nat, amount: nat, floor: nat)
    requires amount > 0
    ensures total / amount >= floor <==> total >= floor * amount
  {
    var q, r := total / amount, total % amount;
    assert total == q * amount + r;
    if q >= floor {
      assert (q - floor) * amount >= 0;
    } else {
      assert (floor - 1 - q) * amount >= 0;
    }
  }

  predicate SaysListed(ev: Option<Log>, body: ListBody) {
    && ev.Some? && ev.value.Listed?
    && ev.value.seller == body.seller && Dec(ev.value.epoch) == body.bond
    && Dec(ev.value.amount) == body.amount && Dec(ev.value.price) == body.total
  }

  /** The row is the first Listed log's: its id, epoch, amount and price, with the body's seller and transaction. */
  ghost predicate Lists(market: string, body: ListBody, logs: seq<Log>, row: Listing) {
    exists i: nat :: FirstListedAt(market, logs, i) &&
      row.id == logs[i].id && row.bond == logs[i].epoch && row.amount == logs[i].amount && row.total == logs[i].price
      && logs[i].seller == body.seller && row.seller == body.seller && row.tx == body.tx
  }

  /** What an accepted listing is: a successful call of the marketplace by the seller whose first Listed event
      says, digit for digit, what the body says, with a positive amount and total >= floor * amount. The comparison is
      of texts, so a leading zero in the body is a mismatch. */
  lemma ListingAccepted(market: string, body: ListBody, rpc: Rpc, floor: Option<nat>)
    ensures var v := VerifyListing(market, body, rpc, floor);
            && (v.Ok? <==>
                  && rpc.Found? && rpc.receipt.ok && rpc.receipt.to == market && rpc.receipt.from == body.seller
                  && SaysListed(FirstListed(market, rpc.receipt.logs), body)
                  && var ev := FirstListed(market, rpc.receipt.logs).value;
                     ev.amount > 0 && ev.price >= MinPrice(floor) * ev.amount)
            && (v.Ok? ==> Lists(market, body, rpc.receipt.logs, v.value))
            && MinPrice(floor) == (if floor.Some? then floor.value else 1_000_000)
            && (v.Ok? ==> v.value.status.Active? && v.value.amount > 0 && v.value.total >= MinPrice(floor) * v.value.amount
                          && Dec(v.value.amount) == body.amount && Dec(v.value.total) == body.total && Dec(v.value.bond) == body.bond)
  {
    ListingChecked(market, body, rpc, floor);
    ListingRecorded(market, body, rpc, floor);
  }

  predicate MeetsMinimum(ev: Option<Log>, floor: nat) {
    ev.Some? && ev.value.Listed? && ev.value.amount > 0 && ev.value.price >= floor * ev.value.amount
  }

  lemma ListingChecked(market: string, body: ListBody, rpc: Rpc, floor: Option<nat>)
    ensures VerifyListing(market, body, rpc, floor).Ok? <==>
            && rpc.Found? && rpc.receipt.ok && rpc.receipt.to == market && rpc.receipt.from == body.seller
            && SaysListed(FirstListed(market, rpc.receipt.logs), body)
            && MeetsMinimum(FirstListed(market, rpc.receipt.logs), MinPrice(floor))
  {
    if rpc.Found? && SaysListed(FirstListed(market, rpc.receipt.logs), body) {
      var ev := FirstListed(market, rpc.receipt.logs).value;
      FloorOfTexts(ev.price, ev.amount, MinPrice(floor));
    }
  }

  /** An accepted listing carries the first event's id and numbers, whose texts are the body's. */
  lemma ListingRecorded(market: string, body: ListBody, rpc: Rpc, floor: Option<nat>)
    ensures var v := VerifyListing(market, body, rpc, floor);
            v.Ok? ==>
              && rpc.Found? && Lists(market, body, rpc.receipt.logs, v.value) && v.value.status.Active?
              && FirstListed(market, rpc.receipt.logs).Some? && FirstListed(market, rpc.receipt.logs).value.Listed?
              && v.value.amount == FirstListed(market, rpc.receipt.logs).value.amount
              && v.value.total == FirstListed(market, rpc.receipt.logs).value.price
              && Dec(v.value.amount) == body.amount && Dec(v.value.total) == body.total && Dec(v.value.bond) == body.bond
  {
    if rpc.Found? { FirstListedFound(market, rpc.receipt.logs); }
  }

  lemma FloorOfTexts(total: nat, amount: nat, floor: nat)
    ensures Value(Dec(amount)) == amount && Value(Dec(total)) == total
    ensures amount > 0 ==> (Value(Dec(total)) / Value(Dec(amount)) >= floor <==> total >= floor * amount)
  {
    ValueOfDec(amount);
    ValueOfDec(total);
    if amount > 0 { FloorByDivision(total, amount, floor); }
  }

  /** In particular a leading zero anywhere in the body's numbers is refused. */
  lemma LeadingZeroRefused(market: string, body: ListBody, rpc: Rpc, floor: Option<nat>)
    requires LeadingZero(body.bond) || LeadingZero(body.amount) || LeadingZero(body.total)
    ensures VerifyListing(market, body, rpc, floor).Err?
  {
    if rpc.Found? && SaysListed(FirstListed(market, rpc.receipt.logs), body) {
      var ev := FirstListed(market, rpc.receipt.logs).value;
      NoLeadingZero(ev.epoch);
      NoLeadingZero(ev.amount);
      NoLeadingZero(ev.price);
      assert false;
    }
    ListingAccepted(market, body, rpc, floor);
  }

  predicate LeadingZero(s: string) {
    |s| > 1 && s[0] == '0'
  }

  lemma {:induction false} NoLeadingZero(n: nat)
    ensures !LeadingZero(Dec(n)) && (n > 0 ==> Dec(n)[0] != '0')
  {
    if n >= 10 { NoLeadingZero(n / 10); }
  }

  /** `row` is the listing read before the await. */
  function VerifyBuy(market: string, body: BuyBody, row: Listing, rpc: Rpc): Result<Purchase, string> {
    var checked := CheckReceipt(rpc, market, body.buyer, "buyer_mismatch");
    if checked.Err? then Err(checked.error) else
    var found := FirstBought(market, checked.value.logs);
    if found.None? then Err("event_missing") else
    var ev := found.value;
    if !ev.Bought? then Err("event_missing") else
    if Dec(ev.id) != body.listing then Err("listing_id_mismatch") else
    if ev.buyer != body.buyer then Err("buyer_mismatch") else
    if ev.seller != row.seller then Err("seller_mismatch") else
    if body.amount != Dec(row.amount) then Err("amount_mismatch") else
    if body.paid != Dec(ev.price + ev.buyerFee) then Err("price_mismatch") else
    Ok(Purchase(ev.id, body.buyer, row.seller, row.bond, row.amount, ev.price + ev.buyerFee, body.tx))
  }

  predicate SaysBought(ev: Option<Log>, body: BuyBody, seller: string) {
    && ev.Some? && ev.value.Bought?
    && Dec(ev.value.id) == body.listing && ev.value.buyer == body.buyer && ev.value.seller == seller
    && body.paid == Dec(ev.value.price + ev.value.buyerFee)
  }

  /** The purchase is the first Bought log's: its id, buyer, seller and price plus fee, with the body's transaction. */
  ghost predicate Buys(market: string, body: BuyBody, logs: seq<Log>, p: Purchase) {
    exists i: nat :: FirstBoughtAt(market, logs, i) &&
      p.listing == logs[i].id && p.buyer == logs[i].buyer && p.seller == logs[i].seller && p.paid == logs[i].price + logs[i].buyerFee
      && p.buyer == body.buyer && p.tx == body.tx && Dec(p.listing) == body.listing && Dec(p.amount) == body.amount
  }

  /** What an accepted buy is, and what it records: the listing's seller and bond, the whole amount, and the
      event's price plus buyer fee, every number of the body being the event's or the row's own text. */
  lemma BuyAccepted(market: string, body: BuyBody, row: Listing, rpc: Rpc)
    ensures var v := VerifyBuy(market, body, row, rpc);
            && (v.Ok? <==>
                  && rpc.Found? && rpc.receipt.ok && rpc.receipt.to == market && rpc.receipt.from == body.buyer
                  && SaysBought(FirstBought(market, rpc.receipt.logs), body, row.seller)
                  && body.amount == Dec(row.amount))
            && (v.Ok? ==> Buys(market, body, rpc.receipt.logs, v.value))
            && (v.Ok? ==> v.value.buyer == body.buyer && v.value.seller == row.seller && v.value.bond == row.bond && v.value.amount == row.amount
                          && v.value.tx == body.tx && Dec(v.value.listing) == body.listing && v.value.paid == Value(body.paid))
  {
    if rpc.Found? && FirstBought(market, rpc.receipt.logs).Some? && FirstBought(market, rpc.receipt.logs).value.Bought? {
      var ev := FirstBought(market, rpc.receipt.logs).value;
      ValueOfDec(ev.price + ev.buyerFee);
      FirstBoughtFound(market, rpc.receipt.logs);
    }
  }

  // ---- tables ----

  datatype Tables = Tables(listings: seq<Listing>, purchases: seq<Purchase>)

  function ListingAt(listings: seq<Listing>, id: nat): (r: Option<nat>)
    ensures r.Some? ==> r.value < |listings| && listings[r.value].id == id
    ensures r.None? <==> forall k :: 0 <= k < |listings| ==> listings[k].id != id
  {
    if listings == [] then None else
      var n := |listings| - 1;
      if listings[n].id == id then Some(n) else ListingAt(listings[..n], id)
  }

  /** The lookup by the text of a listing id. */
  function ListingNamed(listings: seq<Listing>, text: string): (r: Option<nat>)
    ensures r.Some? ==> r.value < |listings| && Dec(listings[r.value].id) == text
    ensures r.None? <==> forall k :: 0 <= k < |listings| ==> Dec(listings[k].id) != text
  {
    if listings == [] then None else
      var n := |listings| - 1;
      if Dec(listings[n].id) == text then Some(n) else ListingNamed(listings[..n], text)
  }

  predicate ListingTxUsed(listings: seq<Listing>, tx: string) {
    exists k :: 0 <= k < |listings| && listings[k].tx == tx
  }

  predicate PurchaseTxUsed(purchases: seq<Purchase>, tx: string) {
    exists k :: 0 <= k < |purchases| && purchases[k].tx == tx
  }

  /** recordListing, with its two UNIQUE constraints. */
  function Insert(db: Tables, row: Listing): Result<Tables, string> {
    if ListingAt(db.listings, row.id).Some? || ListingTxUsed(db.listings, row.tx) then Err("duplicate_listing")
    else Ok(db.(listings := db.listings + [row]))
  }

  /** recordPurchaseAndFinalizeListing: both writes, or neither. */
  function Finalize(db: Tables, p: Purchase): Result<Tables, string> {
    if PurchaseTxUsed(db.purchases, p.tx) then Err("duplicate_purchase") else
    match ListingAt(db.listings, p.listing)
    case None => Err("foreign_key")
    case Some(k) =>
      if !db.listings[k].status.Active? then Err("listing_not_active")
      else Ok(Tables(db.listings[k := db.listings[k].(status := Executed)], db.purchases + [p]))
  }

  // ---- requests ----

  datatype Request =
    | ToList(body: ListBody)
    | ToBuy(order: BuyBody, row: Listing)
    | Answered(code: string)

  /** `floors` remembers the floor each listing was checked against. */
  datatype State = State(db: Tables, requests: map<nat, Request>, floors: map<nat, nat>)

  datatype Label =
    | ListStart(r: nat, lb: ListBody)
    | ListCommit(r: nat, rpc: Rpc, floor: Option<nat>)
    | BuyStart(r: nat, bb: BuyBody)
    | BuyCommit(r: nat, rpc: Rpc)

  const Initial := State(Tables([], []), map[], map[])

  function Answer(s: State, r: nat, code: string): State {
    s.(requests := s.requests[r := Answered(code)])
  }

  function Apply(s: State, market: string, l: Label): State {
    match l
    case ListStart(r, body) =>
      if r in s.requests then s
      else if ListingTxUsed(s.db.listings, body.tx) then Answer(s, r, "duplicate_listing")
      else s.(requests := s.requests[r := ToList(body)])
    case ListCommit(r, rpc, floor) =>
      if !(r in s.requests && s.requests[r].ToList?) then s else
      var v := VerifyListing(market, s.requests[r].body, rpc, floor);
      if v.Err? then Answer(s, r, v.error) else
      var db := Insert(s.db, v.value);
      if db.Err? then Answer(s, r, db.error) else
      Answer(s, r, "ok").(db := db.value, floors := s.floors[v.value.id := MinPrice(floor)])
    case BuyStart(r, body) =>
      if r in s.requests then s
      else if PurchaseTxUsed(s.db.purchases, body.tx) then Answer(s, r, "duplicate_purchase")
      else (match ListingNamed(s.db.listings, body.listing)
            case None => Answer(s, r, "listing_not_found")
            case Some(k) =>
              if !s.db.listings[k].status.Active? then Answer(s, r, "listing_not_active")
              else s.(requests := s.requests[r := ToBuy(body, s.db.listings[k])]))
    case BuyCommit(r, rpc) =>
      if !(r in s.requests && s.requests[r].ToBuy?) then s else
      var v := VerifyBuy(market, s.requests[r].order, s.requests[r].row, rpc);
      if v.Err? then Answer(s, r, v.error) else
      var db := Finalize(s.db, v.value);
      if db.Err? then Answer(s, r, db.error) else Answer(s, r, "ok").(db := db.value)
  }

  function Exec(market: string, ls: seq<Label>): State {
    if ls == [] then Initial else Apply(Exec(market, ls[..|ls| - 1]), market, ls[|ls| - 1])
  }

  // ---- invariants over every interleaving ----

  /** How many purchases reference a listing. */
  function Refs(ps: seq<Purchase>, id: nat): nat {
    if ps == [] then 0 else Refs(ps[..|ps| - 1], id) + (if ps[|ps| - 1].listing == id then 1 else 0)
  }

  ghost predicate Unique(db: Tables) {
    && (forall i, j :: 0 <= i < j < |db.listings| ==> db.listings[i].id != db.listings[j].id && db.listings[i].tx != db.listings[j].tx)
    && (forall i, j :: 0 <= i < j < |db.purchases| ==> db.purchases[i].tx != db.purchases[j].tx)
  }

  /** Executed iff exactly one purchase references it, active iff none does. */
  ghost predicate Settled(db: Tables) {
    forall k :: 0 <= k < |db.listings| ==>
      Refs(db.purchases, db.listings[k].id) == if db.listings[k].status.Executed? then 1 else 0
  }

  predicate SameTerms(x: Listing, y: Listing) {
    x.(status := Active) == y.(status := Active)
  }

  ghost predicate Sells(db: Tables, p: Purchase) {
    exists k :: 0 <= k < |db.listings| && db.listings[k].id == p.listing && db.listings[k].seller == p.seller
                && db.listings[k].bond == p.bond && db.listings[k].amount == p.amount
  }

  ghost predicate Known(db: Tables, row: Listing) {
    exists k :: 0 <= k < |db.listings| && SameTerms(db.listings[k], row)
  }

  ghost predicate AboveFloor(s: State) {
    forall k :: 0 <= k < |s.db.listings| ==> MeetsFloor(s.db.listings[k], s.floors)
  }

  predicate MeetsFloor(x: Listing, floors: map<nat, nat>) {
    x.id in floors && x.amount > 0 && x.total >= floors[x.id] * x.amount
  }

  ghost predicate Inv(s: State) {
    && Unique(s.db) && Settled(s.db) && AboveFloor(s)
    && (forall j :: 0 <= j < |s.db.purchases| ==> Sells(s.db, s.db.purchases[j]))
    && (forall r :: r in s.requests && s.requests[r].ToBuy? ==> BuyOk(s.db, s.requests[r]))
  }

  /** The row read before the await is a listing of the table and the one the body names. */
  ghost predicate BuyOk(db: Tables, q: Request)
    requires q.ToBuy?
  {
    Known(db, q.row) && Dec(q.row.id) == q.order.listing
  }

  /** Listings are never removed or edited; their status may only go from active to executed. */
  ghost predicate Progress(db: Tables, db': Tables) {
    && |db.listings| <= |db'.listings| && db.purchases <= db'.purchases
    && (forall k :: 0 <= k < |db.listings| ==>
          SameTerms(db.listings[k], db'.listings[k]) && (db.listings[k].status.Executed? ==> db'.listings[k].status.Executed?))
  }

  lemma {:induction false} NoRefs(ps: seq<Purchase>, id: nat)
    requires forall j :: 0 <= j < |ps| ==> ps[j].listing != id
    ensures Refs(ps, id) == 0
  {
    if ps != [] { NoRefs(ps[..|ps| - 1], id); }
  }

  lemma ProgressKeeps(db: Tables, db': Tables, p: Purchase, row: Listing)
    requires Progress(db, db')
    ensures Sells(db, p) ==> Sells(db', p)
    ensures Known(db, row) ==> Known(db', row)
  {
    if Sells(db, p) {
      var k :| 0 <= k < |db.listings| && db.listings[k].id == p.listing && db.listings[k].seller == p.seller
               && db.listings[k].bond == p.bond && db.listings[k].amount == p.amount;
      assert SameTerms(db.listings[k], db'.listings[k]) && db'.listings[k].id == p.listing;
    }
    if Known(db, row) {
      var k :| 0 <= k < |db.listings| && SameTerms(db.listings[k], row);
      assert SameTerms(db'.listings[k], row);
    }
  }

  lemma InsertKeeps(s: State, row: Listing, floor: nat, s': State)
    requires Inv(s) && Insert(s.db, row).Ok? && row.status.Active? && row.amount > 0 && row.total >= floor * row.amount
    requires s'.db == Insert(s.db, row).value && s'.floors == s.floors[row.id := floor]
    requires forall r :: r in s'.requests && s'.requests[r].ToBuy? ==> r in s.requests && s.requests[r] == s'.requests[r]
    ensures Inv(s') && Progress(s.db, s'.db)
  {
    InsertFrames(s, row, floor, s');
    forall j | 0 <= j < |s'.db.purchases| ensures Sells(s'.db, s'.db.purchases[j]) {
      ProgressKeeps(s.db, s'.db, s.db.purchases[j], row);
    }
    forall r | r in s'.requests && s'.requests[r].ToBuy? ensures BuyOk(s'.db, s'.requests[r]) {
      assert BuyOk(s.db, s.requests[r]);
      ProgressKeeps(s.db, s'.db, Purchase(0, "", "", 0, 0, 0, ""), s'.requests[r].row);
    }
  }

  lemma InsertFrames(s: State, row: Listing, floor: nat, s': State)
    requires Unique(s.db) && Settled(s.db) && AboveFloor(s)
    requires forall j :: 0 <= j < |s.db.purchases| ==> Sells(s.db, s.db.purchases[j])
    requires Insert(s.db, row).Ok? && row.status.Active? && row.amount > 0 && row.total >= floor * row.amount
    requires s'.db == Insert(s.db, row).value && s'.floors == s.floors[row.id := floor]
    ensures Progress(s.db, s'.db) && Unique(s'.db) && Settled(s'.db) && AboveFloor(s')
  {
    InsertStaysUnique(s.db, row);
    InsertStaysSettled(s.db, row);
    assert MeetsFloor(row, s'.floors);
    forall k | 0 <= k < |s.db.listings| ensures MeetsFloor(s.db.listings[k], s'.floors) {
      assert MeetsFloor(s.db.listings[k], s.floors) && s.db.listings[k].id != row.id;
    }
  }

  lemma InsertStaysUnique(db: Tables, row: Listing)
    requires Unique(db) && Insert(db, row).Ok?
    ensures Unique(Insert(db, row).value) && Progress(db, Insert(db, row).value)
    ensures Insert(db, row).value.listings == db.listings + [row]
    ensures forall k :: 0 <= k < |db.listings| ==> db.listings[k].id != row.id
  {
  }

  lemma InsertStaysSettled(db: Tables, row: Listing)
    requires Settled(db) && Insert(db, row).Ok? && row.status.Active?
    requires forall j :: 0 <= j < |db.purchases| ==> Sells(db, db.purchases[j])
    ensures Settled(Insert(db, row).value)
  {
    forall j | 0 <= j < |db.purchases| ensures db.purchases[j].listing != row.id {
      assert Sells(db, db.purchases[j]);
    }
    NoRefs(db.purchases, row.id);
  }

  lemma RefsAppend(ps: seq<Purchase>, p: Purchase, id: nat)
    ensures Refs(ps + [p], id) == Refs(ps, id) + (if p.listing == id then 1 else 0)
  {
    assert (ps + [p])[..|ps|] == ps;
  }

  lemma FinalizeKeeps(s: State, p: Purchase, row: Listing, s': State)
    requires Inv(s) && Finalize(s.db, p).Ok? && Known(s.db, row)
    requires p.listing == row.id && p.seller == row.seller && p.bond == row.bond && p.amount == row.amount
    requires s'.db == Finalize(s.db, p).value && s'.floors == s.floors
    requires forall r :: r in s'.requests && s'.requests[r].ToBuy? ==> r in s.requests && s.requests[r] == s'.requests[r]
    ensures Inv(s') && Progress(s.db, s'.db)
  {
    FinalizeProgresses(s.db, p);
    FinalizeSettles(s.db, p);
    FloorsStay(s, s');
    FinalizeSells(s.db, p, row);
    forall j | 0 <= j < |s'.db.purchases| ensures Sells(s'.db, s'.db.purchases[j]) {
      if j < |s.db.purchases| { ProgressKeeps(s.db, s'.db, s.db.purchases[j], row); }
    }
    forall r | r in s'.requests && s'.requests[r].ToBuy? ensures BuyOk(s'.db, s'.requests[r]) {
      assert BuyOk(s.db, s.requests[r]);
      ProgressKeeps(s.db, s'.db, p, s'.requests[r].row);
    }
  }

  lemma FinalizeProgresses(db: Tables, p: Purchase)
    requires Unique(db) && Finalize(db, p).Ok?
    ensures Unique(Finalize(db, p).value) && Progress(db, Finalize(db, p).value)
    ensures |Finalize(db, p).value.listings| == |db.listings|
  {
  }

  lemma FinalizeSettles(db: Tables, p: Purchase)
    requires Unique(db) && Settled(db) && Finalize(db, p).Ok?
    ensures Settled(Finalize(db, p).value)
  {
    var db' := Finalize(db, p).value;
    var k := ListingAt(db.listings, p.listing).value;
    forall i | 0 <= i < |db'.listings|
      ensures Refs(db'.purchases, db'.listings[i].id) == if db'.listings[i].status.Executed? then 1 else 0
    {
      RefsAppend(db.purchases, p, db.listings[i].id);
      if i != k { assert db.listings[i].id != db.listings[k].id; }
    }
  }

  lemma FloorsStay(s: State, s': State)
    requires AboveFloor(s) && s'.floors == s.floors && Progress(s.db, s'.db) && |s'.db.listings| == |s.db.listings|
    ensures AboveFloor(s')
  {
    forall k | 0 <= k < |s'.db.listings|
      ensures MeetsFloor(s'.db.listings[k], s'.floors)
    {
      assert MeetsFloor(s.db.listings[k], s.floors) && SameTerms(s.db.listings[k], s'.db.listings[k]);
    }
  }

  /** The listing read before the await still has its seller, bond and amount at commit. */
  lemma FinalizeSells(db: Tables, p: Purchase, row: Listing)
    requires Finalize(db, p).Ok? && Known(db, row)
    requires p.listing == row.id && p.seller == row.seller && p.bond == row.bond && p.amount == row.amount
    ensures Sells(Finalize(db, p).value, p)
  {
    var k :| 0 <= k < |db.listings| && SameTerms(db.listings[k], row);
    var db' := Finalize(db, p).value;
    assert SameTerms(db.listings[k], db'.listings[k]) && db'.listings[k].id == p.listing;
  }

  lemma AnswerKeeps(s: State, s': State)
    requires Inv(s) && s'.db == s.db && s'.floors == s.floors
    requires forall r :: r in s'.requests && s'.requests[r].ToBuy? ==>
               (r in s.requests && s.requests[r] == s'.requests[r]) || BuyOk(s.db, s'.requests[r])
    ensures Inv(s') && Progress(s.db, s'.db)
  {
  }

  lemma StepKeepsInv(s: State, market: string, l: Label)
    requires Inv(s)
    ensures Inv(Apply(s, market, l)) && Progress(s.db, Apply(s, market, l).db)
  {
    match l
    case ListStart(_, _) => AnswerKeeps(s, Apply(s, market, l));
    case ListCommit(r, rpc, floor) => ListCommitKeeps(s, market, r, rpc, floor);
    case BuyStart(r, body) => BuyStartKeeps(s, market, r, body);
    case BuyCommit(r, rpc) => BuyCommitKeeps(s, market, r, rpc);
  }

  lemma ListCommitKeeps(s: State, market: string, r: nat, rpc: Rpc, floor: Option<nat>)
    requires Inv(s)
    ensures var s' := Apply(s, market, ListCommit(r, rpc, floor)); Inv(s') && Progress(s.db, s'.db)
  {
    var s' := Apply(s, market, ListCommit(r, rpc, floor));
    if r in s.requests && s.requests[r].ToList? {
      var v := VerifyListing(market, s.requests[r].body, rpc, floor);
      if v.Ok? && Insert(s.db, v.value).Ok? {
        ListingAccepted(market, s.requests[r].body, rpc, floor);
        InsertKeeps(s, v.value, MinPrice(floor), s');
      } else {
        AnswerKeeps(s, s');
      }
    } else {
      AnswerKeeps(s, s');
    }
  }

  lemma BuyStartKeeps(s: State, market: string, r: nat, body: BuyBody)
    requires Inv(s)
    ensures var s' := Apply(s, market, BuyStart(r, body)); Inv(s') && Progress(s.db, s'.db)
  {
    var s' := Apply(s, market, BuyStart(r, body));
    var k := ListingNamed(s.db.listings, body.listing);
    if k.Some? { assert SameTerms(s.db.listings[k.value], s.db.listings[k.value]); }
    AnswerKeeps(s, s');
  }

  lemma BuyCommitKeeps(s: State, market: string, r: nat, rpc: Rpc)
    requires Inv(s)
    ensures var s' := Apply(s, market, BuyCommit(r, rpc)); Inv(s') && Progress(s.db, s'.db)
  {
    var s' := Apply(s, market, BuyCommit(r, rpc));
    if r in s.requests && s.requests[r].ToBuy? {
      var row := s.requests[r].row;
      var v := VerifyBuy(market, s.requests[r].order, row, rpc);
      assert BuyOk(s.db, s.requests[r]);
      BuyAccepted(market, s.requests[r].order, row, rpc);
      if v.Ok? { DecInjective(v.value.listing, row.id); }
      if v.Ok? && Finalize(s.db, v.value).Ok? {
        FinalizeKeeps(s, v.value, row, s');
      } else {
        AnswerKeeps(s, s');
      }
    } else {
      AnswerKeeps(s, s');
    }
  }

  lemma {:induction false} AlwaysInv(market: string, ls: seq<Label>)
    ensures Inv(Exec(market, ls))
  {
    if ls != [] {
      AlwaysInv(market, ls[..|ls| - 1]);
      StepKeepsInv(Exec(market, ls[..|ls| - 1]), market, ls[|ls| - 1]);
    }
  }

  // ---- main results ----

  /** Over every interleaving of /list and /buy: a listing is executed iff exactly one purchase references it
      and active iff none does; listing ids and the tx hashes of each table stay unique; each listing has a
      positive amount and met total >= floor * amount for the floor it was checked against. */
  lemma ListingsConsistent(market: string, ls: seq<Label>, i: nat, j: nat)
    requires i < |Exec(market, ls).db.listings|
    ensures var s := Exec(market, ls);
            var x := s.db.listings[i];
            && (x.status.Executed? <==> Refs(s.db.purchases, x.id) == 1)
            && (x.status.Active? <==> Refs(s.db.purchases, x.id) == 0)
            && (j < |s.db.listings| && j != i ==> s.db.listings[j].id != x.id && s.db.listings[j].tx != x.tx)
            && x.amount > 0 && x.id in s.floors && x.total >= s.floors[x.id] * x.amount
  {
    AlwaysInv(market, ls);
  }

  /** Each purchase sells an executed listing with that listing's seller, bond and amount; purchase tx hashes
      are unique. */
  lemma PurchasesConsistent(market: string, ls: seq<Label>, i: nat, j: nat)
    requires i < |Exec(market, ls).db.purchases|
    ensures var db := Exec(market, ls).db;
            var p := db.purchases[i];
            && (exists k :: 0 <= k < |db.listings| && db.listings[k].id == p.listing && db.listings[k].status.Executed?
                  && db.listings[k].seller == p.seller && db.listings[k].bond == p.bond && db.listings[k].amount == p.amount)
            && (j < |db.purchases| && j != i ==> db.purchases[j].tx != p.tx)
  {
    AlwaysInv(market, ls);
    var db := Exec(market, ls).db;
    var p := db.purchases[i];
    assert Sells(db, p);
    var k :| 0 <= k < |db.listings| && db.listings[k].id == p.listing && db.listings[k].seller == p.seller
             && db.listings[k].bond == p.bond && db.listings[k].amount == p.amount;
    Referenced(db.purchases, i);
  }

  lemma {:induction false} Referenced(ps: seq<Purchase>, i: nat)
    requires i < |ps|
    ensures Refs(ps, ps[i].listing) >= 1
  {
    if i < |ps| - 1 { Referenced(ps[..|ps| - 1], i); }
  }

  /** Any step leaves every listing's terms alone and moves its status at most from active to executed; a
      /buy or /list that is not answered "ok" leaves no row at all. */
  lemma {:induction false} StatusOnlyAdvances(market: string, ls: seq<Label>, l: Label)
    ensures var s, s' := Exec(market, ls), Apply(Exec(market, ls), market, l);
            && Progress(s.db, s'.db)
            && (l.BuyCommit? && l.r in s'.requests && s'.requests[l.r] != Answered("ok") ==> s'.db == s.db)
            && (l.ListCommit? && l.r in s'.requests && s'.requests[l.r] != Answered("ok") ==> s'.db == s.db)
            && (l.ListStart? || l.BuyStart? ==> s'.db == s.db)
  {
    AlwaysInv(market, ls);
    StepKeepsInv(Exec(market, ls), market, l);
  }

  // ---- the store ----

  class Store {
    var listings: seq<Listing>
    var purchases: seq<Purchase>

    ghost function View(): Tables reads this {
      Tables(listings, purchases)
    }

    constructor ()
      ensures View() == Tables([], [])
    {
      listings, purchases := [], [];
    }

    method GetListing(text: string) returns (r: Option<Listing>)
      ensures r == match ListingNamed(listings, text) case None => None case Some(k) => Some(listings[k])
    {
      var k := ListingNamed(listings, text);
      r := if k.Some? then Some(listings[k.value]) else None;
    }

    method RecordListing(row: Listing) returns (r: Result<Listing, string>)
      modifies this
      ensures match Insert(old(View()), row)
              case Ok(db) => r == Ok(row) && View() == db
              case Err(code) => r == Err(code) && View() == old(View())
    {
      var k := ListingAt(listings, row.id);
      if k.Some? || ListingTxUsed(listings, row.tx) {
        return Err("duplicate_listing");
      }
      listings := listings + [row];
      return Ok(row);
    }

    /** The transaction: insert the purchase, update the listing WHERE status = 'active', and roll the insert
        back when the update changed no row. */
    method RecordPurchaseAndFinalizeListing(p: Purchase) returns (r: Result<Purchase, string>)
      modifies this
      ensures match Finalize(old(View()), p)
              case Ok(db) => r == Ok(p) && View() == db
              case Err(code) => r == Err(code) && View() == old(View())
    {
      var before := purchases;
      if PurchaseTxUsed(purchases, p.tx) {
        return Err("duplicate_purchase");
      }
      var k := ListingAt(listings, p.listing);
      if k.None? {
        return Err("foreign_key");
      }
      purchases := purchases + [p];
      var changes := 0;
      if listings[k.value].status.Active? {
        listings := listings[k.value := listings[k.value].(status := Executed)];
        changes := 1;
      }
      if changes == 0 {
        purchases := before;
        return Err("listing_not_active");
      }
      return Ok(p);
    }
  }

  /** The log loops of verifyListing and verifyBuy. */
  method FindListed(market: string, logs: seq<Log>) returns (r: Option<Log>)
    ensures r == FirstListed(market, logs)
  {
    var i := 0;
    while i < |logs|
      invariant i <= |logs| && FirstListed(market, logs) == FirstListed(market, logs[i..])
    {
      if logs[i].Listed? && logs[i].address == market {
        return Some(logs[i]);
      }
      i := i + 1;
    }
    return None;
  }

  method FindBought(market: string, logs: seq<Log>) returns (r: Option<Log>)
    ensures r == FirstBought(market, logs)
  {
    var i := 0;
    while i < |logs|
      invariant i <= |logs| && FirstBought(market, logs) == FirstBought(market, logs[i..])
    {
      if logs[i].Bought? && logs[i].address == market {
        return Some(logs[i]);
      }
      i := i + 1;
    }
    return None;
  }
}
