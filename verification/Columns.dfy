/** What the indexed rows hold, column by column, read off the log alone: an insert-time column is the first log's with the
    row's key, an updated column the last update's after it (indexer/src/index.ts:17-220). */
module Columns {
  import opened Basics
  import opened RowKeys
  import opened Indexer
  import Calendar

  // ---- columns written once ----

  /** A row of one of the four keyed tables. */
  datatype Key = PolicyId(id: string) | TriggerId(id: string) | BondId(id: string) | ListingId(id: string)

  /** The event inserts the row unless it is there. */
  predicate Inserts(e: Event, k: Key) {
    (k.PolicyId? && e.PolicyPurchased? && k.id == PolicyKey(e.product, e.policy))
    || (k.TriggerId? && e.TriggerSubmitted? && k.id == LogKey(e.m.tx, e.m.logIndex))
    || (k.BondId? && (e.BondIssued? || e.BondRedeemed?) && k.id == LogKey(e.m.tx, e.m.logIndex))
    || (k.ListingId? && e.Listed? && k.id == Dec(e.listing))
  }

  predicate Present(db: Db, k: Key) {
    match k
    case PolicyId(id) => id in db.policies
    case TriggerId(id) => id in db.triggers
    case BondId(id) => id in db.bonds
    case ListingId(id) => id in db.listings
  }

  /** The first second of the epoch's month, by the month-by-month Gregorian calendar; years 0 to 99 are the 1900s. */
  function FirstSecond(epoch: nat): int {
    var year := epoch / 100;
    (Calendar.MonthStart(((if year <= 99 then 1900 + year else year) * 12 + epoch % 100) - 1) - 719528) * 86400
  }

  /** The row's insert-time columns are the event's. */
  predicate Shows(db: Db, k: Key, e: Event)
    requires Present(db, k) && Inserts(e, k)
  {
    match k
    case PolicyId(id) =>
      var row := db.policies[id];
      && row.product == e.product && row.policy == e.policy && row.buyer == e.buyer && row.coverage == e.coverage
      && row.premium == e.premium && row.payout == e.payout && row.paidBy == e.paidBy && row.m == e.m
    case TriggerId(id) =>
      var row := db.triggers[id];
      row.product == e.product && row.policy == e.policy && row.submitter == e.submitter && row.m == e.m
    case BondId(id) =>
      var row := db.bonds[id];
      && row.issued == e.BondIssued? && row.owner == (if e.BondIssued? then e.to else e.holder)
      && row.epoch == e.epoch && row.usd == e.usd && row.lumina == (if e.BondIssued? then None else Some(e.lumina))
      && row.maturityAt == FirstSecond(e.epoch) && row.m == e.m
    case ListingId(id) =>
      var row := db.listings[id];
      row.seller == e.seller && row.epoch == e.epoch && row.amount == e.amount && row.price == e.price && row.m == e.m
  }

  lemma MaturityIsFirstSecond(epoch: nat)
    ensures Calendar.Maturity(epoch) == FirstSecond(epoch)
  {
    var year := epoch / 100;
    var abs := (if year <= 99 then 1900 + year else year) * 12 + epoch % 100 - 1;
    assert abs >= 0;
    Calendar.MakeDayIsGregorian(abs);
  }

  lemma InsertStep(db: Db, e: Event, k: Key)
    requires !Present(db, k)
    ensures Present(Apply(db, e), k) <==> Inserts(e, k)
    ensures Inserts(e, k) ==> Shows(Apply(db, e), k, e)
  {
    if e.BondIssued? || e.BondRedeemed? { MaturityIsFirstSecond(e.epoch); }
  }

  lemma KeepsOnce(db: Db, e: Event, k: Key, f: Event)
    requires (k.TriggerId? || k.BondId?) && Present(db, k) && Inserts(f, k) && Shows(db, k, f)
    ensures Present(Apply(db, e), k) && Shows(Apply(db, e), k, f)
  {
  }

  lemma KeepsPolicy(db: Db, e: Event, k: Key, f: Event)
    requires k.PolicyId? && Present(db, k) && Inserts(f, k) && Shows(db, k, f)
    ensures Present(Apply(db, e), k) && Shows(Apply(db, e), k, f)
  {
  }

  lemma KeepsListing(db: Db, e: Event, k: Key, f: Event)
    requires k.ListingId? && Present(db, k) && Inserts(f, k) && Shows(db, k, f)
    ensures Present(Apply(db, e), k) && Shows(Apply(db, e), k, f)
  {
  }

  lemma KeepStep(db: Db, e: Event, k: Key, f: Event)
    requires Present(db, k) && Inserts(f, k) && Shows(db, k, f)
    ensures Present(Apply(db, e), k) && Shows(Apply(db, e), k, f)
  {
    match k
    case PolicyId(_) => KeepsPolicy(db, e, k, f);
    case ListingId(_) => KeepsListing(db, e, k, f);
    case _ => KeepsOnce(db, e, k, f);
  }

  /** Log p is the first that inserts the row. */
  predicate FirstInsert(log: seq<Event>, p: nat, k: Key) {
    p < |log| && Inserts(log[p], k) && forall i :: 0 <= i < p ==> !Inserts(log[i], k)
  }

  lemma {:induction false} AbsentUntilInserted(log: seq<Event>, k: Key)
    requires forall i :: 0 <= i < |log| ==> !Inserts(log[i], k)
    ensures !Present(Fold(Empty, log), k)
  {
    if log != [] {
      AbsentUntilInserted(log[..|log| - 1], k);
      InsertStep(Fold(Empty, log[..|log| - 1]), log[|log| - 1], k);
    }
  }

  /** Over every log, a row exists iff some event inserts it, and its insert-time columns are those of the first such event:
      of a policy, a trigger, a bond movement or a listing. A bond's maturity column is the first second of its month. */
  lemma {:induction false} RowIsFirstLog(log: seq<Event>, p: nat, k: Key)
    requires FirstInsert(log, p, k)
    ensures Present(Fold(Empty, log), k) && Shows(Fold(Empty, log), k, log[p])
  {
    var n := |log| - 1;
    if p == n {
      AbsentUntilInserted(log[..n], k);
      InsertStep(Fold(Empty, log[..n]), log[n], k);
    } else {
      RowIsFirstLog(log[..n], p, k);
      KeepStep(Fold(Empty, log[..n]), log[n], k, log[p]);
    }
  }

  /** A bond row, spelled out. */
  predicate BondShows(row: BondRow, e: Event) {
    && (e.BondIssued? ==> row.issued && row.owner == e.to && row.epoch == e.epoch && row.usd == e.usd && row.lumina == None)
    && (e.BondRedeemed? ==> !row.issued && row.owner == e.holder && row.epoch == e.epoch && row.usd == e.usd && row.lumina == Some(e.lumina))
    && row.m == e.m
    && (1 <= row.epoch % 100 <= 12 && row.epoch >= 10000 ==>
          row.maturityAt == (Calendar.MonthStart(row.epoch / 100 * 12 + (row.epoch % 100 - 1)) - 719528) * 86400)
  }

  lemma ShownBond(db: Db, id: string, e: Event)
    requires id in db.bonds && Inserts(e, BondId(id)) && Shows(db, BondId(id), e)
    ensures BondShows(db.bonds[id], e)
  {
  }

  /** Over every log, the bond columns are those of the first log with the row's key, and a month code matures at the first
      second of its month. */
  lemma BondColumns(log: seq<Event>, p: nat, id: string)
    requires FirstInsert(log, p, BondId(id))
    ensures Present(Fold(Empty, log), BondId(id)) && BondShows(Fold(Empty, log).bonds[id], log[p])
  {
    RowIsFirstLog(log, p, BondId(id));
    ShownBond(Fold(Empty, log), id, log[p]);
  }

  // ---- columns a later event overwrites ----

  predicate Triggers(e: Event, id: string) {
    e.TriggerSubmitted? && PolicyKey(e.product, e.policy) == id
  }

  lemma PolicyMoves(db: Db, e: Event, id: string)
    requires id in db.policies
    ensures id in Apply(db, e).policies
    ensures Apply(db, e).policies[id].live == if Triggers(e, id) then Live(Triggered, Some(TriggerStamp(e.m.tx, e.m.time))) else db.policies[id].live
  {
  }

  lemma PolicyBegins(db: Db, e: Event, id: string)
    requires id !in db.policies && Inserts(e, PolicyId(id))
    ensures id in Apply(db, e).policies && Apply(db, e).policies[id].live == Live(Active, None)
  {
  }

  predicate LastTrigger(log: seq<Event>, p: nat, q: nat, id: string) {
    p < q < |log| && Triggers(log[q], id) && forall j :: q < j < |log| ==> !Triggers(log[j], id)
  }

  /** The columns the events after log p leave in a policy row. */
  ghost predicate PolicyLive(log: seq<Event>, p: nat, id: string, live: Live) {
    && ((forall j :: p < j < |log| ==> !Triggers(log[j], id)) ==> live == Live(Active, None))
    && (forall q: nat :: LastTrigger(log, p, q, id) ==> live == Live(Triggered, Some(TriggerStamp(log[q].m.tx, log[q].m.time))))
  }

  lemma PolicyFollows(init: seq<Event>, e: Event, p: nat, id: string, live: Live, live': Live)
    requires p < |init| && PolicyLive(init, p, id, live)
    requires live' == if Triggers(e, id) then Live(Triggered, Some(TriggerStamp(e.m.tx, e.m.time))) else live
    ensures PolicyLive(init + [e], p, id, live')
  {
    var log := init + [e];
    assert log[|init|] == e && forall j :: 0 <= j < |init| ==> log[j] == init[j];
    forall q: nat | LastTrigger(log, p, q, id) ensures live' == Live(Triggered, Some(TriggerStamp(log[q].m.tx, log[q].m.time))) {
      if q < |init| { assert LastTrigger(init, p, q, id); }
    }
  }

  /** Over every log, a policy row is triggered iff a trigger of it follows its first purchase, and carries the
      transaction and time of the last one. */
  lemma {:induction false} PolicyIsLastTrigger(log: seq<Event>, p: nat, id: string)
    requires FirstInsert(log, p, PolicyId(id))
    ensures Present(Fold(Empty, log), PolicyId(id)) && PolicyLive(log, p, id, Fold(Empty, log).policies[id].live)
  {
    var n := |log| - 1;
    var init := log[..n];
    assert log == init + [log[n]];
    if p == n {
      AbsentUntilInserted(init, PolicyId(id));
      PolicyBegins(Fold(Empty, init), log[n], id);
    } else {
      PolicyIsLastTrigger(init, p, id);
      PolicyMoves(Fold(Empty, init), log[n], id);
      PolicyFollows(init, log[n], p, id, Fold(Empty, init).policies[id].live, Apply(Fold(Empty, init), log[n]).policies[id].live);
    }
  }

  predicate Cancels(e: Event, id: string) {
    e.Cancelled? && Dec(e.listing) == id
  }

  predicate Fills(e: Event, id: string) {
    e.Bought? && Dec(e.listing) == id
  }

  lemma ListingMoves(db: Db, e: Event, id: string)
    requires id in db.listings
    ensures id in Apply(db, e).listings
    ensures var live, live' := db.listings[id].live, Apply(db, e).listings[id].live;
            && live'.status == (if Cancels(e, id) then Withdrawn else if Fills(e, id) then Filled else live.status)
            && live'.stamp == if Fills(e, id) then Some(FillStamp(e.buyer, e.sellerFee, e.buyerFee, e.m.block, e.m.tx)) else live.stamp
  {
  }

  predicate LastOf(log: seq<Event>, p: nat, q: nat, id: string, fills: bool) {
    && p < q < |log| && (Fills(log[q], id) || (!fills && Cancels(log[q], id)))
    && forall j :: q < j < |log| ==> !Fills(log[j], id) && (fills || !Cancels(log[j], id))
  }

  /** The columns the events after log p leave in a listing row. */
  ghost predicate ListingLive(log: seq<Event>, p: nat, id: string, live: Live) {
    && ((forall j :: p < j < |log| ==> !Fills(log[j], id) && !Cancels(log[j], id)) ==> live.status == Active)
    && ((forall j :: p < j < |log| ==> !Fills(log[j], id)) ==> live.stamp == None)
    && (forall q: nat :: LastOf(log, p, q, id, false) ==> live.status == if log[q].Bought? then Filled else Withdrawn)
    && (forall q: nat :: LastOf(log, p, q, id, true) ==>
          live.stamp == Some(FillStamp(log[q].buyer, log[q].sellerFee, log[q].buyerFee, log[q].m.block, log[q].m.tx)))
  }

  /** Over every log, a listing row is active until a cancel or a buy follows its first Listed log; then the last of them says
      which it is, and the last buy gives buyer, both fees, block and transaction. */
  lemma {:induction false} ListingIsLastUpdate(log: seq<Event>, p: nat, id: string)
    requires FirstInsert(log, p, ListingId(id))
    ensures Present(Fold(Empty, log), ListingId(id)) && ListingLive(log, p, id, Fold(Empty, log).listings[id].live)
  {
    var n := |log| - 1;
    var init := log[..n];
    assert log == init + [log[n]];
    if p == n {
      AbsentUntilInserted(init, ListingId(id));
      ListingBegins(Fold(Empty, init), log[n], id);
    } else {
      ListingIsLastUpdate(init, p, id);
      ListingMoves(Fold(Empty, init), log[n], id);
      LiveFollows(init, log[n], p, id, Fold(Empty, init).listings[id].live, Apply(Fold(Empty, init), log[n]).listings[id].live);
    }
  }

  lemma ListingBegins(db: Db, e: Event, id: string)
    requires id !in db.listings && Inserts(e, ListingId(id))
    ensures id in Apply(db, e).listings && Apply(db, e).listings[id].live == Live(Active, None)
  {
  }

  lemma LiveFollows(init: seq<Event>, e: Event, p: nat, id: string, live: Live, live': Live)
    requires p < |init| && ListingLive(init, p, id, live)
    requires live'.status == (if Cancels(e, id) then Withdrawn else if Fills(e, id) then Filled else live.status)
    requires live'.stamp == if Fills(e, id) then Some(FillStamp(e.buyer, e.sellerFee, e.buyerFee, e.m.block, e.m.tx)) else live.stamp
    ensures ListingLive(init + [e], p, id, live')
  {
    var log := init + [e];
    assert log[|init|] == e && forall j :: 0 <= j < |init| ==> log[j] == init[j];
    forall q: nat | LastOf(log, p, q, id, false) ensures live'.status == if log[q].Bought? then Filled else Withdrawn {
      if q < |init| { assert LastOf(init, p, q, id, false); }
    }
    forall q: nat | LastOf(log, p, q, id, true)
      ensures live'.stamp == Some(FillStamp(log[q].buyer, log[q].sellerFee, log[q].buyerFee, log[q].m.block, log[q].m.tx))
    {
      if q < |init| { assert LastOf(init, p, q, id, true); }
    }
  }

  // ---- transfers ----

  /** The row of leg i. */
  function LegRow(e: Event, i: nat): TransferRow
    requires e.TransferBatch? && i < |e.legs|
  {
    TransferRow(LegKey(e.m.tx, e.m.logIndex, i), e.from, e.to, e.legs[i].0, e.legs[i].1, e.m)
  }

  /** The row is the event's, or one of its legs. */
  ghost predicate Carries(e: Event, row: TransferRow) {
    || (e.TransferSingle? && row == TransferRow(LogKey(e.m.tx, e.m.logIndex), e.from, e.to, e.id, e.value, e.m))
    || (e.TransferBatch? && exists i: nat :: i < |e.legs| && row == LegRow(e, i))
  }

  /** The event has a row with this id. */
  ghost predicate Names(e: Event, id: string) {
    || (e.TransferSingle? && id == LogKey(e.m.tx, e.m.logIndex))
    || (e.TransferBatch? && exists i: nat :: i < |e.legs| && id == LegKey(e.m.tx, e.m.logIndex, i))
  }

  ghost predicate UniqueIds(rows: seq<TransferRow>) {
    forall i, j :: 0 <= i < j < |rows| ==> rows[i].id != rows[j].id
  }

  /** The event appended rows of its own with new ids. */
  ghost predicate Appended(rows: seq<TransferRow>, rows': seq<TransferRow>, e: Event) {
    && rows <= rows' && (UniqueIds(rows) ==> UniqueIds(rows'))
    && (forall k :: |rows| <= k < |rows'| ==> Carries(e, rows'[k]) && !HasId(rows, rows'[k].id))
  }

  lemma PutAppends(rows: seq<TransferRow>, mid: seq<TransferRow>, e: Event, row: TransferRow)
    requires Appended(rows, mid, e) && Carries(e, row)
    ensures Appended(rows, PutTransfer(mid, row), e)
  {
    IdsStay(rows, mid, row.id);
  }

  lemma IdsStay(rows: seq<TransferRow>, mid: seq<TransferRow>, id: string)
    requires rows <= mid
    ensures HasId(rows, id) ==> HasId(mid, id)
  {
    forall k | 0 <= k < |rows| && rows[k].id == id ensures HasId(mid, id) { assert mid[k].id == id; }
  }

  lemma {:induction false} LegsAppend(rows: seq<TransferRow>, e: Event, n: nat)
    requires e.TransferBatch? && n <= |e.legs|
    ensures Appended(rows, PutLegs(rows, e, n), e)
  {
    if n > 0 {
      LegsAppend(rows, e, n - 1);
      assert Leg(e, n - 1) == LegRow(e, n - 1);
      PutAppends(rows, PutLegs(rows, e, n - 1), e, Leg(e, n - 1));
    }
  }

  lemma TransfersAppend(db: Db, e: Event)
    ensures Appended(db.transfers, Apply(db, e).transfers, e)
  {
    if e.TransferSingle? {
      PutAppends(db.transfers, db.transfers, e, TransferRow(LogKey(e.m.tx, e.m.logIndex), e.from, e.to, e.id, e.value, e.m));
    } else if e.TransferBatch? {
      LegsAppend(db.transfers, e, |e.legs|);
    }
  }

  /** The first log with a row of this id is the one the row comes from. */
  ghost predicate FromFirst(log: seq<Event>, row: TransferRow) {
    exists p :: 0 <= p < |log| && Carries(log[p], row) && forall i :: 0 <= i < p ==> !Names(log[i], row.id)
  }

  /** Over every log, the transfer table has no id twice, each row is the first log's (or leg's) with its id, column by
      column, and every transfer's ids are there. */
  lemma {:induction false} TransfersAreFirstLogs(log: seq<Event>)
    ensures var rows := Fold(Empty, log).transfers;
            && UniqueIds(rows)
            && (forall k :: 0 <= k < |rows| ==> FromFirst(log, rows[k]))
            && forall i, id :: 0 <= i < |log| && Names(log[i], id) ==> HasId(rows, id)
  {
    forall i, id | 0 <= i < |log| && Names(log[i], id) ensures HasId(Fold(Empty, log).transfers, id) {
      HasAll(Empty, log, i);
    }
    if log != [] {
      var init, e := log[..|log| - 1], log[|log| - 1];
      assert log == init + [e];
      TransfersAreFirstLogs(init);
      TransfersAppend(Fold(Empty, init), e);
      FirstsFollow(init, e, Fold(Empty, init).transfers, Apply(Fold(Empty, init), e).transfers);
    }
  }

  /** Rows with new ids appended by an event come from it first. */
  lemma FirstsFollow(init: seq<Event>, e: Event, rows: seq<TransferRow>, rows': seq<TransferRow>)
    requires Appended(rows, rows', e)
    requires forall k :: 0 <= k < |rows| ==> FromFirst(init, rows[k])
    requires forall i, id :: 0 <= i < |init| && Names(init[i], id) ==> HasId(rows, id)
    ensures forall k :: 0 <= k < |rows'| ==> FromFirst(init + [e], rows'[k])
  {
    var log := init + [e];
    assert log[|init|] == e && forall i :: 0 <= i < |init| ==> log[i] == init[i];
    forall k | 0 <= k < |rows'| ensures FromFirst(log, rows'[k]) {
      if k < |rows| {
        assert rows'[k] == rows[k];
        var p :| 0 <= p < |init| && Carries(init[p], rows[k]) && forall i :: 0 <= i < p ==> !Names(init[i], rows[k].id);
        assert Carries(log[p], rows'[k]);
      } else {
        assert Carries(log[|init|], rows'[k]);
      }
    }
  }
}
