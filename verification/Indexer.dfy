/** The event handlers of indexer/src/index.ts over the tables of indexer/ponder.schema.ts. */
module Indexer {
  import opened Basics
  import opened RowKeys
  import Calendar

  /** Where a log sits on the chain. */
  datatype Meta = Meta(tx: Hex, logIndex: nat, block: nat, time: nat)

  datatype Event =
    | PolicyPurchased(product: Hex, policy: nat, buyer: string, coverage: nat, premium: nat, payout: nat, paidBy: string, m: Meta)
    | TriggerSubmitted(product: Hex, policy: nat, submitter: string, m: Meta)
    | BondIssued(to: string, epoch: nat, usd: nat, m: Meta)
    | BondRedeemed(holder: string, epoch: nat, usd: nat, lumina: nat, m: Meta)
    | Listed(listing: nat, seller: string, epoch: nat, amount: nat, price: nat, m: Meta)
    | Cancelled(listing: nat, m: Meta)
    | Bought(listing: nat, buyer: string, sellerFee: nat, buyerFee: nat, m: Meta)
    | TransferSingle(from: string, to: string, id: nat, value: nat, m: Meta)
    | TransferBatch(from: string, to: string, legs: seq<(nat, nat)>, m: Meta)   // (id, value) pairs

  datatype Status = Active | Triggered | Withdrawn | Filled

  /** The nullable columns a later event fills in. */
  datatype Stamp =
    | TriggerStamp(tx: Hex, at: nat)
    | FillStamp(buyer: string, sellerFee: nat, buyerFee: nat, block: nat, tx: Hex)

  /** The columns of a policy or listing row that later events update. */
  datatype Live = Live(status: Status, stamp: Option<Stamp>)

  const Start: Live := Live(Active, None)

  datatype PolicyRow = PolicyRow(product: Hex, policy: nat, buyer: string, coverage: nat, premium: nat, payout: nat,
                                 paidBy: string, m: Meta, live: Live)
  datatype TriggerRow = TriggerRow(product: Hex, policy: nat, submitter: string, m: Meta)
  datatype BondRow = BondRow(issued: bool, owner: string, epoch: nat, usd: nat, lumina: Option<nat>, maturityAt: int, m: Meta)
  datatype ListingRow = ListingRow(seller: string, epoch: nat, amount: nat, price: nat, m: Meta, live: Live)
  datatype TransferRow = TransferRow(id: string, from: string, to: string, epoch: nat, amount: nat, m: Meta)

  /** Tables by primary key; bond_transfer in insertion order. */
  datatype Db = Db(
    policies: map<string, PolicyRow>,
    triggers: map<string, TriggerRow>,
    bonds: map<string, BondRow>,
    listings: map<string, ListingRow>,
    transfers: seq<TransferRow>)

  const Empty := Db(map[], map[], map[], map[], [])

  /** insert(...).onConflictDoNothing(). */
  function Put<R>(table: map<string, R>, id: string, row: R): map<string, R> {
    if id in table then table else table[id := row]
  }

  predicate HasId(rows: seq<TransferRow>, id: string) {
    exists k :: 0 <= k < |rows| && rows[k].id == id
  }

  function PutTransfer(rows: seq<TransferRow>, row: TransferRow): seq<TransferRow> {
    if HasId(rows, row.id) then rows else rows + [row]
  }

  function Leg(e: Event, i: nat): TransferRow
    requires e.TransferBatch? && i < |e.legs|
  {
    TransferRow(LegKey(e.m.tx, e.m.logIndex, i), e.from, e.to, e.legs[i].0, e.legs[i].1, e.m)
  }

  function PutLegs(rows: seq<TransferRow>, e: Event, n: nat): seq<TransferRow>
    requires e.TransferBatch? && n <= |e.legs|
  {
    if n == 0 then rows else PutTransfer(PutLegs(rows, e, n - 1), Leg(e, n - 1))
  }

  function SetPolicy(db: Db, id: string, live: Live): Db {
    if id in db.policies then db.(policies := db.policies[id := db.policies[id].(live := live)]) else db
  }

  function SetListing(db: Db, id: string, p: Patch): Db {
    if id in db.listings then
      db.(listings := db.listings[id := db.listings[id].(live := Patched(db.listings[id].live, p))])
    else db
  }

  /** One handler run. */
  function Apply(db: Db, e: Event): Db {
    match e
    case PolicyPurchased(product, policy, buyer, coverage, premium, payout, paidBy, m) =>
      db.(policies := Put(db.policies, PolicyKey(product, policy),
                          PolicyRow(product, policy, buyer, coverage, premium, payout, paidBy, m, Start)))
    case TriggerSubmitted(product, policy, submitter, m) =>
      SetPolicy(db.(triggers := Put(db.triggers, LogKey(m.tx, m.logIndex), TriggerRow(product, policy, submitter, m))),
                PolicyKey(product, policy), Live(Triggered, Some(TriggerStamp(m.tx, m.time))))
    case BondIssued(to, epoch, usd, m) =>
      db.(bonds := Put(db.bonds, LogKey(m.tx, m.logIndex), BondRow(true, to, epoch, usd, None, Calendar.Maturity(epoch), m)))
    case BondRedeemed(holder, epoch, usd, lumina, m) =>
      db.(bonds := Put(db.bonds, LogKey(m.tx, m.logIndex),
                       BondRow(false, holder, epoch, usd, Some(lumina), Calendar.Maturity(epoch), m)))
    case Listed(listing, seller, epoch, amount, price, m) =>
      db.(listings := Put(db.listings, Dec(listing), ListingRow(seller, epoch, amount, price, m, Start)))
    case Cancelled(listing, _) => SetListing(db, Dec(listing), Patch(Some(Withdrawn), None))
    case Bought(listing, buyer, sellerFee, buyerFee, m) =>
      SetListing(db, Dec(listing), Patch(Some(Filled), Some(FillStamp(buyer, sellerFee, buyerFee, m.block, m.tx))))
    case TransferSingle(from, to, id, value, m) =>
      db.(transfers := PutTransfer(db.transfers, TransferRow(LogKey(m.tx, m.logIndex), from, to, id, value, m)))
    case TransferBatch(_, _, legs, _) => db.(transfers := PutLegs(db.transfers, e, |legs|))
  }

  function Fold(db: Db, log: seq<Event>): Db {
    if log == [] then db else Apply(Fold(db, log[..|log| - 1]), log[|log| - 1])
  }

  lemma {:induction false} FoldAppend(db: Db, a: seq<Event>, b: seq<Event>)
    ensures Fold(db, a + b) == Fold(Fold(db, a), b)
  {
    if b == [] {
      assert a + b == a;
    } else {
      FoldAppend(db, a, b[..|b| - 1]);
      assert (a + b)[..|a + b| - 1] == a + b[..|b| - 1];
    }
  }

  // ---- updates as patches ----

  /** The live columns an event overwrites. */
  datatype Patch = Patch(status: Option<Status>, stamp: Option<Stamp>)

  const NoPatch := Patch(None, None)

  function Patched(l: Live, p: Patch): Live {
    Live(if p.status.Some? then p.status.value else l.status, if p.stamp.Some? then p.stamp else l.stamp)
  }

  function Then(p: Patch, q: Patch): Patch {
    Patch(if q.status.Some? then q.status else p.status, if q.stamp.Some? then q.stamp else p.stamp)
  }

  /** A row that later events update. */
  datatype LiveKey = PolicyRef(id: string) | ListingRef(id: string)

  function LiveOf(db: Db, k: LiveKey): Option<Live> {
    match k
    case PolicyRef(id) => if id in db.policies then Some(db.policies[id].live) else None
    case ListingRef(id) => if id in db.listings then Some(db.listings[id].live) else None
  }

  predicate Creates(e: Event, k: LiveKey) {
    (e.PolicyPurchased? && k == PolicyRef(PolicyKey(e.product, e.policy)))
    || (e.Listed? && k == ListingRef(Dec(e.listing)))
  }

  function PatchOf(e: Event, k: LiveKey): Patch {
    match e
    case TriggerSubmitted(product, policy, _, m) =>
      if k == PolicyRef(PolicyKey(product, policy)) then Patch(Some(Triggered), Some(TriggerStamp(m.tx, m.time))) else NoPatch
    case Cancelled(listing, _) => if k == ListingRef(Dec(listing)) then Patch(Some(Withdrawn), None) else NoPatch
    case Bought(listing, buyer, sellerFee, buyerFee, m) =>
      if k == ListingRef(Dec(listing)) then Patch(Some(Filled), Some(FillStamp(buyer, sellerFee, buyerFee, m.block, m.tx)))
      else NoPatch
    case _ => NoPatch
  }

  function PatchAll(log: seq<Event>, k: LiveKey): Patch {
    if log == [] then NoPatch else Then(PatchAll(log[..|log| - 1], k), PatchOf(log[|log| - 1], k))
  }

  lemma {:induction false} PatchAppend(a: seq<Event>, b: seq<Event>, k: LiveKey)
    ensures PatchAll(a + b, k) == Then(PatchAll(a, k), PatchAll(b, k))
  {
    if b == [] {
      assert a + b == a;
    } else {
      PatchAppend(a, b[..|b| - 1], k);
      assert (a + b)[..|a + b| - 1] == a + b[..|b| - 1];
    }
  }

  /** No update ever writes 'active'. */
  lemma {:induction false} NeverReactivates(log: seq<Event>, k: LiveKey)
    ensures PatchAll(log, k).status != Some(Active)
  {
    if log != [] { NeverReactivates(log[..|log| - 1], k); }
  }

  /** What one event does to one updatable row. A purchase or listing seen again changes nothing, so it
      never resets a triggered, cancelled or filled row to active. */
  lemma LiveStep(db: Db, e: Event, k: LiveKey)
    ensures LiveOf(Apply(db, e), k) ==
            match LiveOf(db, k)
            case Some(l) => Some(Patched(l, PatchOf(e, k)))
            case None => if Creates(e, k) then Some(Start) else None
    ensures Creates(e, k) && LiveOf(db, k).Some? ==> LiveOf(Apply(db, e), k) == LiveOf(db, k)
  {
  }

  lemma {:induction false} LiveRun(db: Db, log: seq<Event>, k: LiveKey)
    requires LiveOf(db, k).Some?
    ensures LiveOf(Fold(db, log), k) == Some(Patched(LiveOf(db, k).value, PatchAll(log, k)))
  {
    if log != [] {
      LiveRun(db, log[..|log| - 1], k);
      LiveStep(Fold(db, log[..|log| - 1]), log[|log| - 1], k);
    }
  }

  /** Event p is the first that creates row k. */
  predicate FirstCreation(log: seq<Event>, p: nat, k: LiveKey) {
    p < |log| && Creates(log[p], k) && forall i :: 0 <= i < p ==> !Creates(log[i], k)
  }

  lemma {:induction false} NotYet(log: seq<Event>, k: LiveKey)
    requires forall i :: 0 <= i < |log| ==> !Creates(log[i], k)
    ensures LiveOf(Fold(Empty, log), k) == None
  {
    if log != [] {
      NotYet(log[..|log| - 1], k);
      LiveStep(Fold(Empty, log[..|log| - 1]), log[|log| - 1], k);
    }
  }

  /** A row's final live columns are those of its creation overwritten by the events after it. */
  lemma LiveOfLog(log: seq<Event>, p: nat, k: LiveKey)
    requires FirstCreation(log, p, k)
    ensures LiveOf(Fold(Empty, log), k) == Some(Patched(Start, PatchAll(log[p..], k)))
  {
    var before, e, after := log[..p], log[p], log[p + 1..];
    SplitAt(log, p);
    LiveAfterCreation(before, e, after, k);
  }

  lemma SplitAt(log: seq<Event>, p: nat)
    requires p < |log|
    ensures log == (log[..p] + [log[p]]) + log[p + 1..] && log[p..] == [log[p]] + log[p + 1..]
  {
  }

  lemma LiveAfterCreation(before: seq<Event>, e: Event, after: seq<Event>, k: LiveKey)
    requires Creates(e, k) && forall i :: 0 <= i < |before| ==> !Creates(before[i], k)
    ensures LiveOf(Fold(Empty, (before + [e]) + after), k) == Some(Patched(Start, PatchAll([e] + after, k)))
  {
    NotYet(before, k);
    LiveStep(Fold(Empty, before), e, k);
    FoldLast(before, e);
    FoldAppend(Empty, before + [e], after);
    LiveRun(Fold(Empty, before + [e]), after, k);
    PatchAppend([e], after, k);
    PatchOne(e, k);
  }

  lemma FoldLast(log: seq<Event>, e: Event)
    ensures Fold(Empty, log + [e]) == Apply(Fold(Empty, log), e)
  {
    assert (log + [e])[..|log|] == log;
  }

  lemma PatchOne(e: Event, k: LiveKey)
    ensures PatchAll([e], k) == Then(NoPatch, PatchOf(e, k))
  {
    assert [e][..0] == [];
  }

  // ---- everything else is written once ----

  function Frozen(db: Db): Db {
    db.(policies := map id | id in db.policies :: db.policies[id].(live := Start),
        listings := map id | id in db.listings :: db.listings[id].(live := Start))
  }

  /** The rows the event inserts are there. */
  predicate Has(db: Db, e: Event) {
    match e
    case PolicyPurchased(product, policy, _, _, _, _, _, _) => PolicyKey(product, policy) in db.policies
    case TriggerSubmitted(_, _, _, m) => LogKey(m.tx, m.logIndex) in db.triggers
    case BondIssued(_, _, _, m) => LogKey(m.tx, m.logIndex) in db.bonds
    case BondRedeemed(_, _, _, _, m) => LogKey(m.tx, m.logIndex) in db.bonds
    case Listed(listing, _, _, _, _, _) => Dec(listing) in db.listings
    case Cancelled(_, _) => true
    case Bought(_, _, _, _, _) => true
    case TransferSingle(_, _, _, _, m) => HasId(db.transfers, LogKey(m.tx, m.logIndex))
    case TransferBatch(_, _, legs, m) => forall i: nat :: i < |legs| ==> HasId(db.transfers, LegKey(m.tx, m.logIndex, i))
  }

  lemma {:induction false} PutLegsHas(rows: seq<TransferRow>, e: Event, n: nat)
    requires e.TransferBatch? && n <= |e.legs|
    ensures forall id :: HasId(rows, id) ==> HasId(PutLegs(rows, e, n), id)
    ensures forall i: nat :: i < n ==> HasId(PutLegs(rows, e, n), LegKey(e.m.tx, e.m.logIndex, i))
    ensures (forall i: nat :: i < n ==> HasId(rows, LegKey(e.m.tx, e.m.logIndex, i))) ==> PutLegs(rows, e, n) == rows
  {
    if n > 0 {
      PutLegsHas(rows, e, n - 1);
      PutHas(PutLegs(rows, e, n - 1), Leg(e, n - 1));
    }
  }

  lemma PutHas(rows: seq<TransferRow>, row: TransferRow)
    ensures HasId(PutTransfer(rows, row), row.id)
    ensures forall id :: HasId(rows, id) ==> HasId(PutTransfer(rows, row), id)
  {
    var rows' := PutTransfer(rows, row);
    if rows' != rows { assert rows'[|rows|].id == row.id; }
    forall id | HasId(rows, id) ensures HasId(rows', id) {
      var k :| 0 <= k < |rows| && rows[k].id == id;
      assert rows'[k].id == id;
    }
  }

  lemma HasStep(db: Db, e: Event)
    ensures Has(Apply(db, e), e)
  {
    match e
    case TransferSingle(from, to, id, value, m) => PutHas(db.transfers, TransferRow(LogKey(m.tx, m.logIndex), from, to, id, value, m));
    case TransferBatch(_, _, legs, _) => PutLegsHas(db.transfers, e, |legs|);
    case _ =>
  }

  lemma HasStays(db: Db, e: Event, f: Event)
    requires Has(db, e)
    ensures Has(Apply(db, f), e)
  {
    match f
    case TransferSingle(from, to, id, value, m) => PutHas(db.transfers, TransferRow(LogKey(m.tx, m.logIndex), from, to, id, value, m));
    case TransferBatch(_, _, legs, _) => PutLegsHas(db.transfers, f, |legs|);
    case _ =>
  }

  lemma FrozenStep(db: Db, e: Event)
    requires Has(db, e)
    ensures Frozen(Apply(db, e)) == Frozen(db)
  {
    if e.TransferBatch? { PutLegsHas(db.transfers, e, |e.legs|); }
  }

  lemma {:induction false} HasAll(db: Db, log: seq<Event>, i: nat)
    requires i < |log|
    ensures Has(Fold(db, log), log[i])
  {
    var n := |log| - 1;
    if i == n {
      HasStep(Fold(db, log[..n]), log[n]);
    } else {
      HasAll(db, log[..n], i);
      HasStays(Fold(db, log[..n]), log[i], log[n]);
    }
  }

  /** The tables have the rows of every event of the log. */
  ghost predicate HasEach(db: Db, log: seq<Event>) {
    forall i :: 0 <= i < |log| ==> Has(db, log[i])
  }

  lemma {:induction false} FrozenRun(db: Db, log: seq<Event>)
    requires HasEach(db, log)
    ensures Frozen(Fold(db, log)) == Frozen(db)
    ensures forall e :: Has(db, e) ==> Has(Fold(db, log), e)
  {
    if log != [] {
      var init, last := log[..|log| - 1], log[|log| - 1];
      assert HasEach(db, init) && Has(db, last);
      FrozenRun(db, init);
      FrozenStep(Fold(db, init), last);
      forall e | Has(db, e) ensures Has(Fold(db, log), e) { HasStays(Fold(db, init), e, last); }
    }
  }

  lemma SameDb(a: Db, b: Db)
    requires Frozen(a) == Frozen(b) && forall k :: LiveOf(a, k) == LiveOf(b, k)
    ensures a == b
  {
    assert Frozen(a).policies.Keys == a.policies.Keys && Frozen(b).policies.Keys == b.policies.Keys;
    assert Frozen(a).listings.Keys == a.listings.Keys && Frozen(b).listings.Keys == b.listings.Keys;
    forall id | id in a.policies ensures a.policies[id] == b.policies[id] {
      assert Frozen(a).policies[id] == Frozen(b).policies[id] && LiveOf(a, PolicyRef(id)) == LiveOf(b, PolicyRef(id));
    }
    forall id | id in a.listings ensures a.listings[id] == b.listings[id] {
      assert Frozen(a).listings[id] == Frozen(b).listings[id] && LiveOf(a, ListingRef(id)) == LiveOf(b, ListingRef(id));
    }
  }

  // ---- replay ----

  /** Reprocessing any suffix of the log on top of the final tables changes nothing. */
  ghost predicate ReplaySafe(log: seq<Event>) {
    forall j :: 0 <= j <= |log| ==> Fold(Fold(Empty, log), log[j..]) == Fold(Empty, log)
  }

  predicate Covers(q: Patch, p: Patch) {
    (p.status.Some? ==> q.status.Some?) && (p.stamp.Some? ==> q.stamp.Some?)
  }

  /** If an update of a row comes before the row's purchase or listing, an update of the same columns also
      comes after it. */
  ghost predicate Settled(log: seq<Event>) {
    forall p: nat, k :: FirstCreation(log, p, k) ==> Covers(PatchAll(log[p..], k), PatchAll(log[..p], k))
  }

  lemma {:induction false} FindCreation(log: seq<Event>, k: LiveKey) returns (p: nat)
    ensures p < |log| ==> FirstCreation(log, p, k)
    ensures p >= |log| ==> p == |log| && forall i :: 0 <= i < |log| ==> !Creates(log[i], k)
  {
    p := 0;
    while p < |log| && !Creates(log[p], k)
      invariant p <= |log| && forall i :: 0 <= i < p ==> !Creates(log[i], k)
    {
      p := p + 1;
    }
  }

  lemma ReplayAbsent(log: seq<Event>, j: nat, k: LiveKey)
    requires j <= |log| && forall i :: 0 <= i < |log| ==> !Creates(log[i], k)
    ensures LiveOf(Fold(Fold(Empty, log), log[j..]), k) == None && LiveOf(Fold(Empty, log), k) == None
  {
    NotYet(log, k);
    FoldAppend(Empty, log, log[j..]);
    NotYet(log + log[j..], k);
  }

  /** The patches of a suffix, applied once more, add nothing the creation's own suffix did not write. */
  lemma SuffixAbsorbed(log: seq<Event>, p: nat, j: nat, k: LiveKey)
    requires p <= |log| && j <= |log| && Covers(PatchAll(log[p..], k), PatchAll(log[..p], k))
    ensures Patched(Patched(Start, PatchAll(log[p..], k)), PatchAll(log[j..], k)) == Patched(Start, PatchAll(log[p..], k))
  {
    if j <= p {
      assert log[j..] == log[j..p] + log[p..];
      assert log[..p] == log[..j] + log[j..p];
      PatchAppend(log[j..p], log[p..], k);
      PatchAppend(log[..j], log[j..p], k);
    } else {
      assert log[p..] == log[p..j] + log[j..];
      PatchAppend(log[p..j], log[j..], k);
    }
  }

  lemma ReplayLive(log: seq<Event>, j: nat, k: LiveKey)
    requires Settled(log) && j <= |log|
    ensures LiveOf(Fold(Fold(Empty, log), log[j..]), k) == LiveOf(Fold(Empty, log), k)
  {
    var p := FindCreation(log, k);
    if p == |log| {
      ReplayAbsent(log, j, k);
    } else {
      LiveOfLog(log, p, k);
      LiveRun(Fold(Empty, log), log[j..], k);
      SuffixAbsorbed(log, p, j, k);
    }
  }

  lemma HasWhole(log: seq<Event>)
    ensures HasEach(Fold(Empty, log), log)
  {
    forall i | 0 <= i < |log| ensures Has(Fold(Empty, log), log[i]) { HasAll(Empty, log, i); }
  }

  lemma HasSuffix(db: Db, log: seq<Event>, j: nat)
    requires j <= |log| && HasEach(db, log)
    ensures HasEach(db, log[j..])
  {
    var suffix := log[j..];
    forall i | 0 <= i < |suffix| ensures Has(db, suffix[i]) {
      assert suffix[i] == log[j + i];
    }
  }

  lemma SuffixChangesNothing(log: seq<Event>, j: nat)
    requires Settled(log) && j <= |log|
    ensures Fold(Fold(Empty, log), log[j..]) == Fold(Empty, log)
  {
    var db := Fold(Empty, log);
    var db' := Fold(db, log[j..]);
    forall k ensures LiveOf(db', k) == LiveOf(db, k) { ReplayLive(log, j, k); }
    HasWhole(log);
    HasSuffix(db, log, j);
    FrozenRun(db, log[j..]);
    SameDb(db', db);
  }

  /** An early update that nothing after the creation repeats shows up when the whole log is reprocessed. */
  lemma WholeLogChanges(log: seq<Event>, p: nat, k: LiveKey)
    requires FirstCreation(log, p, k) && !Covers(PatchAll(log[p..], k), PatchAll(log[..p], k))
    ensures Fold(Fold(Empty, log), log) != Fold(Empty, log)
  {
    var db := Fold(Empty, log);
    LiveOfLog(log, p, k);
    LiveRun(db, log, k);
    assert log == log[..p] + log[p..];
    PatchAppend(log[..p], log[p..], k);
    NeverReactivates(log, k);
    assert LiveOf(Fold(db, log), k) != LiveOf(db, k);
  }

  /** Replay safety, exactly: reprocessing any suffix changes nothing iff no row has an update that precedes
      its purchase or listing and is not repeated after it. */
  lemma ReplaySafeIff(log: seq<Event>)
    ensures ReplaySafe(log) <==> Settled(log)
  {
    if Settled(log) {
      forall j | 0 <= j <= |log| ensures Fold(Fold(Empty, log), log[j..]) == Fold(Empty, log) { SuffixChangesNothing(log, j); }
    } else {
      var p: nat, k :| FirstCreation(log, p, k) && !Covers(PatchAll(log[p..], k), PatchAll(log[..p], k));
      WholeLogChanges(log, p, k);
      assert log[0..] == log;
    }
  }

  /** Each trigger, cancel and buy follows its purchase or listing, or has none at all. */
  ghost predicate Causal(log: seq<Event>) {
    forall p: nat, i, k :: FirstCreation(log, p, k) && 0 <= i < p ==> PatchOf(log[i], k) == NoPatch
  }

  lemma {:induction false} NoPatches(log: seq<Event>, k: LiveKey)
    requires forall i :: 0 <= i < |log| ==> PatchOf(log[i], k) == NoPatch
    ensures PatchAll(log, k) == NoPatch
  {
    if log != [] { NoPatches(log[..|log| - 1], k); }
  }

  lemma CausalReplay(log: seq<Event>)
    requires Causal(log)
    ensures ReplaySafe(log)
  {
    forall p: nat, k | FirstCreation(log, p, k) ensures PatchAll(log[..p], k) == NoPatch {
      forall i | 0 <= i < |log[..p]| ensures PatchOf(log[..p][i], k) == NoPatch { assert log[..p][i] == log[i]; }
      NoPatches(log[..p], k);
    }
    ReplaySafeIff(log);
  }

  // ---- the handlers ----

  class Handlers {
    var policies: map<string, PolicyRow>
    var triggers: map<string, TriggerRow>
    var bonds: map<string, BondRow>
    var listings: map<string, ListingRow>
    var transfers: seq<TransferRow>

    ghost function Tables(): Db reads this {
      Db(policies, triggers, bonds, listings, transfers)
    }

    constructor ()
      ensures Tables() == Empty
    {
      policies, triggers, bonds, listings, transfers := map[], map[], map[], map[], [];
    }

    method OnPolicyPurchased(e: Event)
      requires e.PolicyPurchased?
      modifies this
      ensures Tables() == Apply(old(Tables()), e)
    {
      var id := PolicyKey(e.product, e.policy);
      if id !in policies {
        policies := policies[id := PolicyRow(e.product, e.policy, e.buyer, e.coverage, e.premium, e.payout, e.paidBy, e.m, Start)];
      }
    }

    method OnTriggerSubmitted(e: Event)
      requires e.TriggerSubmitted?
      modifies this
      ensures Tables() == Apply(old(Tables()), e)
    {
      var id := LogKey(e.m.tx, e.m.logIndex);
      if id !in triggers {
        triggers := triggers[id := TriggerRow(e.product, e.policy, e.submitter, e.m)];
      }
      var policyKey := PolicyKey(e.product, e.policy);
      if policyKey in policies {
        policies := policies[policyKey := policies[policyKey].(live := Live(Triggered, Some(TriggerStamp(e.m.tx, e.m.time))))];
      }
    }

    method OnBond(e: Event)
      requires e.BondIssued? || e.BondRedeemed?
      modifies this
      ensures Tables() == Apply(old(Tables()), e)
    {
      var id := LogKey(e.m.tx, e.m.logIndex);
      if id !in bonds {
        bonds := bonds[id := if e.BondIssued?
                             then BondRow(true, e.to, e.epoch, e.usd, None, Calendar.Maturity(e.epoch), e.m)
                             else BondRow(false, e.holder, e.epoch, e.usd, Some(e.lumina), Calendar.Maturity(e.epoch), e.m)];
      }
    }

    method OnListed(e: Event)
      requires e.Listed?
      modifies this
      ensures Tables() == Apply(old(Tables()), e)
    {
      var id := Dec(e.listing);
      if id !in listings {
        listings := listings[id := ListingRow(e.seller, e.epoch, e.amount, e.price, e.m, Start)];
      }
    }

    method OnCancelled(e: Event)
      requires e.Cancelled?
      modifies this
      ensures Tables() == Apply(old(Tables()), e)
    {
      var id := Dec(e.listing);
      if id in listings {
        var row := listings[id];
        listings := listings[id := row.(live := Live(Withdrawn, row.live.stamp))];
      }
    }

    method OnBought(e: Event)
      requires e.Bought?
      modifies this
      ensures Tables() == Apply(old(Tables()), e)
    {
      var id := Dec(e.listing);
      if id in listings {
        var stamp := FillStamp(e.buyer, e.sellerFee, e.buyerFee, e.m.block, e.m.tx);
        listings := listings[id := listings[id].(live := Live(Filled, Some(stamp)))];
      }
    }

    method InsertTransfer(row: TransferRow)
      modifies this
      ensures Tables() == old(Tables()).(transfers := PutTransfer(old(transfers), row))
    {
      if !(exists k :: 0 <= k < |transfers| && transfers[k].id == row.id) {
        transfers := transfers + [row];
      }
    }

    method OnTransferSingle(e: Event)
      requires e.TransferSingle?
      modifies this
      ensures Tables() == Apply(old(Tables()), e)
    {
      InsertTransfer(TransferRow(LogKey(e.m.tx, e.m.logIndex), e.from, e.to, e.id, e.value, e.m));
    }

    method OnTransferBatch(e: Event)
      requires e.TransferBatch?
      modifies this
      ensures Tables() == Apply(old(Tables()), e)
    {
      for i := 0 to |e.legs|
        invariant Tables() == old(Tables()).(transfers := PutLegs(old(transfers), e, i))
      {
        InsertTransfer(Leg(e, i));
      }
    }
  }
}
