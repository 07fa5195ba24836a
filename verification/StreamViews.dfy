/** The six SQL streams of src/services/chainEvents.ts evaluated over the indexer's tables: handling one block
    of events is, for each stream, the step `ChainEvents.Index` that the emitter's guarantees rely on. */
module StreamViews {
  import opened Basics
  import opened RowKeys
  import opened Indexer
  import C = ChainEvents

  /** trigger JOIN policy ON product_id and policy_id. */
  predicate Joins(t: TriggerRow, p: PolicyRow) {
    t.product == p.product && t.policy == p.policy
  }

  predicate Sold(r: ListingRow) {
    r.live.status.Filled? && r.live.stamp.Some? && r.live.stamp.value.FillStamp?
  }

  /** The rows of each stream's SELECT, over all blocks. */
  function View(db: Db, st: C.Stream): set<C.Row> {
    match st
    case PolicyPurchased => set id | id in db.policies :: C.Row(id, db.policies[id].m.block, db.policies[id].buyer)
    case PolicyTriggered =>
      set id, pid | id in db.triggers && pid in db.policies && Joins(db.triggers[id], db.policies[pid])
        :: C.Row(id, db.triggers[id].m.block, db.policies[pid].buyer)
    case BondMinted => set id | id in db.bonds && db.bonds[id].issued :: C.Row(id, db.bonds[id].m.block, db.bonds[id].owner)
    case BondRedeemed => set id | id in db.bonds && !db.bonds[id].issued :: C.Row(id, db.bonds[id].m.block, db.bonds[id].owner)
    case ListingCreated => set id | id in db.listings :: C.Row(id, db.listings[id].m.block, db.listings[id].seller)
    case ListingPurchased =>
      set id | id in db.listings && Sold(db.listings[id])
        :: C.Row(id, db.listings[id].live.stamp.value.block, db.listings[id].seller)
  }

  /** The blocks each stream's MAX(...) ranges over; the trigger stream takes it without the join. */
  function Blocks(db: Db, st: C.Stream): set<nat> {
    match st
    case PolicyTriggered => set id | id in db.triggers :: db.triggers[id].m.block
    case _ => set r | r in View(db, st) :: r.block
  }

  // ---- table invariants ----

  /** Ids match columns, a stamp matches its status, and everything was written at or below block `top`. */
  ghost predicate TablesOk(db: Db, top: nat) {
    && (forall id :: id in db.policies ==>
          id == PolicyKey(db.policies[id].product, db.policies[id].policy) && db.policies[id].m.block <= top)
    && (forall id :: id in db.triggers ==> db.triggers[id].m.block <= top)
    && (forall id :: id in db.bonds ==> db.bonds[id].m.block <= top)
    && (forall id :: id in db.listings ==>
          db.listings[id].m.block <= top && (Sold(db.listings[id]) ==> db.listings[id].live.stamp.value.block <= top))
  }

  /** What the contracts guarantee of the next event: it is in block `b`; no purchase follows a trigger of
      its own policy; a filled listing gets no further cancel or buy. */
  ghost predicate Plausible(db: Db, e: Event, b: nat) {
    && e.m.block == b
    && (e.PolicyPurchased? && PolicyKey(e.product, e.policy) !in db.policies ==>
          forall id :: id in db.triggers ==> !(db.triggers[id].product == e.product && db.triggers[id].policy == e.policy))
    && (e.Cancelled? || e.Bought? ==> Dec(e.listing) in db.listings ==> !Sold(db.listings[Dec(e.listing)]))
  }

  /** A trigger joins at most one policy row. */
  lemma JoinUnique(db: Db, top: nat, t: TriggerRow, p: string, q: string)
    requires TablesOk(db, top) && p in db.policies && q in db.policies
    requires Joins(t, db.policies[p]) && Joins(t, db.policies[q])
    ensures p == q
  {
  }

  lemma StepKeepsTables(db: Db, e: Event, top: nat)
    requires TablesOk(db, top) && e.m.block >= top
    ensures TablesOk(Apply(db, e), e.m.block)
  {
    PoliciesKept(db, e, top);
    TriggersKept(db, e, top);
    BondsKept(db, e, top);
    ListingsKept(db, e, top);
  }

  lemma TriggersKept(db: Db, e: Event, top: nat)
    requires TablesOk(db, top) && e.m.block >= top
    ensures var ts := Apply(db, e).triggers; forall id :: id in ts ==> ts[id].m.block <= e.m.block
  {
    if !e.TriggerSubmitted? {
      assert Apply(db, e).triggers == db.triggers;
    }
  }

  lemma BondsKept(db: Db, e: Event, top: nat)
    requires TablesOk(db, top) && e.m.block >= top
    ensures var bs := Apply(db, e).bonds; forall id :: id in bs ==> bs[id].m.block <= e.m.block
  {
    if !e.BondIssued? && !e.BondRedeemed? {
      assert Apply(db, e).bonds == db.bonds;
    }
  }

  lemma PoliciesKept(db: Db, e: Event, top: nat)
    requires TablesOk(db, top) && e.m.block >= top
    ensures var ps := Apply(db, e).policies;
            forall id :: id in ps ==> id == PolicyKey(ps[id].product, ps[id].policy) && ps[id].m.block <= e.m.block
  {
    if !e.PolicyPurchased? && !e.TriggerSubmitted? {
      assert Apply(db, e).policies == db.policies;
    }
  }

  lemma ListingsKept(db: Db, e: Event, top: nat)
    requires TablesOk(db, top) && e.m.block >= top
    ensures var xs := Apply(db, e).listings;
            forall id :: id in xs ==>
              xs[id].m.block <= e.m.block && (Sold(xs[id]) ==> xs[id].live.stamp.value.block <= e.m.block)
  {
    if !e.Listed? && !e.Cancelled? && !e.Bought? {
      assert Apply(db, e).listings == db.listings;
    }
  }

  // ---- each event is at most one row of one stream ----

  /** The stream row an event stands for, if it is one the emitter reports: a purchase or listing not seen
      before, a new bond log, a new trigger whose policy is indexed, a fill of an indexed listing. */
  function RowFor(db: Db, e: Event): Option<(C.Stream, C.Row)> {
    match e
    case PolicyPurchased(product, policy, buyer, _, _, _, _, m) =>
      if PolicyKey(product, policy) in db.policies then None
      else Some((C.PolicyPurchased, C.Row(PolicyKey(product, policy), m.block, buyer)))
    case TriggerSubmitted(product, policy, _, m) =>
      if LogKey(m.tx, m.logIndex) in db.triggers || PolicyKey(product, policy) !in db.policies then None
      else Some((C.PolicyTriggered, C.Row(LogKey(m.tx, m.logIndex), m.block, db.policies[PolicyKey(product, policy)].buyer)))
    case BondIssued(owner, _, _, m) =>
      if LogKey(m.tx, m.logIndex) in db.bonds then None
      else Some((C.BondMinted, C.Row(LogKey(m.tx, m.logIndex), m.block, owner)))
    case BondRedeemed(owner, _, _, _, m) =>
      if LogKey(m.tx, m.logIndex) in db.bonds then None
      else Some((C.BondRedeemed, C.Row(LogKey(m.tx, m.logIndex), m.block, owner)))
    case Listed(listing, seller, _, _, _, m) =>
      if Dec(listing) in db.listings then None else Some((C.ListingCreated, C.Row(Dec(listing), m.block, seller)))
    case Bought(listing, _, _, _, m) =>
      if Dec(listing) !in db.listings then None
      else Some((C.ListingPurchased, C.Row(Dec(listing), m.block, db.listings[Dec(listing)].seller)))
    case _ => None
  }

  /** Membership of a stream, read off the row's key. */
  predicate InView(db: Db, st: C.Stream, r: C.Row) {
    match st
    case PolicyPurchased => r.key in db.policies && r == C.Row(r.key, db.policies[r.key].m.block, db.policies[r.key].buyer)
    case PolicyTriggered =>
      r.key in db.triggers &&
      var t := db.triggers[r.key];
      var pid := PolicyKey(t.product, t.policy);
      pid in db.policies && r == C.Row(r.key, t.m.block, db.policies[pid].buyer)
    case BondMinted =>
      r.key in db.bonds && db.bonds[r.key].issued && r == C.Row(r.key, db.bonds[r.key].m.block, db.bonds[r.key].owner)
    case BondRedeemed =>
      r.key in db.bonds && !db.bonds[r.key].issued && r == C.Row(r.key, db.bonds[r.key].m.block, db.bonds[r.key].owner)
    case ListingCreated => r.key in db.listings && r == C.Row(r.key, db.listings[r.key].m.block, db.listings[r.key].seller)
    case ListingPurchased =>
      r.key in db.listings && Sold(db.listings[r.key])
      && r == C.Row(r.key, db.listings[r.key].live.stamp.value.block, db.listings[r.key].seller)
  }

  lemma ViewMembers(db: Db, top: nat, st: C.Stream, r: C.Row)
    requires TablesOk(db, top)
    ensures r in View(db, st) <==> InView(db, st, r)
  {
    if st.PolicyTriggered? && InView(db, st, r) {
      var t := db.triggers[r.key];
      var p := db.policies[PolicyKey(t.product, t.policy)];
      PolicyKeyInjective(t.product, t.policy, p.product, p.policy);
      assert Joins(t, p);
    }
  }

  lemma StepMembers(db: Db, e: Event, top: nat, st: C.Stream, r: C.Row)
    requires TablesOk(db, top) && Plausible(db, e, e.m.block)
    ensures InView(Apply(db, e), st, r) <==> InView(db, st, r) || RowFor(db, e) == Some((st, r))
  {
    match e
    case PolicyPurchased(_, _, _, _, _, _, _, _) => PolicyMembers(db, e, st, r);
    case TriggerSubmitted(_, _, _, _) => TriggerMembers(db, e, st, r);
    case BondIssued(_, _, _, _) => BondMembers(db, e, st, r);
    case BondRedeemed(_, _, _, _, _) => BondMembers(db, e, st, r);
    case Listed(_, _, _, _, _, _) => ListedMembers(db, e, st, r);
    case Bought(_, _, _, _, _) => BoughtMembers(db, e, st, r);
    case Cancelled(_, _) => CancelledMembers(db, e, st, r);
    case TransferSingle(_, _, _, _, _) =>
    case TransferBatch(_, _, _, _) =>
  }

  lemma BondMembers(db: Db, e: Event, st: C.Stream, r: C.Row)
    requires e.BondIssued? || e.BondRedeemed?
    ensures InView(Apply(db, e), st, r) <==> InView(db, st, r) || RowFor(db, e) == Some((st, r))
  {
    var db' := Apply(db, e);
    assert db'.policies == db.policies && db'.triggers == db.triggers && db'.listings == db.listings;
  }

  lemma ListedMembers(db: Db, e: Event, st: C.Stream, r: C.Row)
    requires e.Listed?
    ensures InView(Apply(db, e), st, r) <==> InView(db, st, r) || RowFor(db, e) == Some((st, r))
  {
    var db' := Apply(db, e);
    assert db'.policies == db.policies && db'.triggers == db.triggers && db'.bonds == db.bonds;
  }

  lemma PolicyMembers(db: Db, e: Event, st: C.Stream, r: C.Row)
    requires Plausible(db, e, e.m.block) && e.PolicyPurchased?
    ensures InView(Apply(db, e), st, r) <==> InView(db, st, r) || RowFor(db, e) == Some((st, r))
  {
    if st.PolicyTriggered? && r.key in db.triggers {
      var t := db.triggers[r.key];
      PolicyKeyInjective(t.product, t.policy, e.product, e.policy);
    }
  }

  lemma TriggerMembers(db: Db, e: Event, st: C.Stream, r: C.Row)
    requires e.TriggerSubmitted?
    ensures InView(Apply(db, e), st, r) <==> InView(db, st, r) || RowFor(db, e) == Some((st, r))
  {
    var db' := Apply(db, e);
    TriggerFrame(db, e);
    if st.PolicyTriggered? {
      assert r.key != LogKey(e.m.tx, e.m.logIndex) ==> (InView(db', st, r) <==> InView(db, st, r));
    }
  }

  /** A trigger leaves the columns of policies that streams show alone. */
  lemma TriggerFrame(db: Db, e: Event)
    requires e.TriggerSubmitted?
    ensures var db' := Apply(db, e);
            && db'.policies.Keys == db.policies.Keys && db'.bonds == db.bonds && db'.listings == db.listings
            && (forall id :: id in db.policies ==> db'.policies[id] == db.policies[id].(live := db'.policies[id].live))
            && db'.triggers == Put(db.triggers, LogKey(e.m.tx, e.m.logIndex), TriggerRow(e.product, e.policy, e.submitter, e.m))
  {
  }

  lemma BoughtMembers(db: Db, e: Event, st: C.Stream, r: C.Row)
    requires Plausible(db, e, e.m.block) && e.Bought?
    ensures InView(Apply(db, e), st, r) <==> InView(db, st, r) || RowFor(db, e) == Some((st, r))
  {
    var db' := Apply(db, e);
    assert db'.policies == db.policies && db'.triggers == db.triggers && db'.bonds == db.bonds;
    assert db'.listings.Keys == db.listings.Keys;
    assert forall id :: id in db.listings ==> db'.listings[id] == db.listings[id].(live := db'.listings[id].live);
  }

  lemma CancelledMembers(db: Db, e: Event, st: C.Stream, r: C.Row)
    requires Plausible(db, e, e.m.block) && e.Cancelled?
    ensures InView(Apply(db, e), st, r) <==> InView(db, st, r)
  {
    var db' := Apply(db, e);
    assert db'.policies == db.policies && db'.triggers == db.triggers && db'.bonds == db.bonds;
    assert db'.listings.Keys == db.listings.Keys;
    assert forall id :: id in db.listings ==> db'.listings[id] == db.listings[id].(live := db'.listings[id].live);
  }

  /** The handler of a plausible event puts that row, and no other new one, into its stream, and changes
      no other stream. */
  lemma EventIsRow(db: Db, e: Event, top: nat, st: C.Stream)
    requires TablesOk(db, top) && Plausible(db, e, e.m.block) && e.m.block >= top
    ensures forall r :: r in View(Apply(db, e), st) <==> r in View(db, st) || RowFor(db, e) == Some((st, r))
  {
    StepKeepsTables(db, e, top);
    forall r ensures r in View(Apply(db, e), st) <==> r in View(db, st) || RowFor(db, e) == Some((st, r)) {
      ViewMembers(db, top, st, r);
      ViewMembers(Apply(db, e), e.m.block, st, r);
      StepMembers(db, e, top, st, r);
    }
  }

  /** An event adds only rows of its own block to a stream, and removes or changes none. */
  ghost predicate Extends(db: Db, db': Db, st: C.Stream, b: nat) {
    && View(db, st) <= View(db', st)
    && (forall r :: r in View(db', st) ==> r in View(db, st) || r.block == b)
    && Blocks(db, st) <= Blocks(db', st)
    && (forall x :: x in Blocks(db', st) ==> x in Blocks(db, st) || x == b)
  }

  lemma StepExtends(db: Db, e: Event, top: nat, st: C.Stream)
    requires TablesOk(db, top) && Plausible(db, e, e.m.block) && e.m.block >= top
    ensures Extends(db, Apply(db, e), st, e.m.block)
  {
    EventIsRow(db, e, top, st);
    RowForInBlock(db, e);
    if st.PolicyTriggered? {
      TriggerBlocks(db, e);
    } else {
      BlocksOfView(db, st);
      BlocksOfView(Apply(db, e), st);
    }
  }

  lemma RowForInBlock(db: Db, e: Event)
    ensures RowFor(db, e).Some? ==> RowFor(db, e).value.1.block == e.m.block
  {
  }

  lemma BlocksOfView(db: Db, st: C.Stream)
    requires !st.PolicyTriggered?
    ensures Blocks(db, st) == set r | r in View(db, st) :: r.block
  {
  }

  lemma TriggerBlocks(db: Db, e: Event)
    ensures var db' := Apply(db, e);
            && Blocks(db, C.PolicyTriggered) <= Blocks(db', C.PolicyTriggered)
            && (forall x :: x in Blocks(db', C.PolicyTriggered) ==> x in Blocks(db, C.PolicyTriggered) || x == e.m.block)
  {
    var ts, ts' := db.triggers, Apply(db, e).triggers;
    assert forall id :: id in ts ==> id in ts' && ts'[id] == ts[id];
    assert forall id :: id in ts' && id !in ts ==> ts'[id].m == e.m;
    forall x | x in Blocks(db, C.PolicyTriggered) ensures x in Blocks(Apply(db, e), C.PolicyTriggered) {
      var id :| id in ts && ts[id].m.block == x;
      assert id in ts' && ts'[id].m.block == x;
    }
    forall x | x in Blocks(Apply(db, e), C.PolicyTriggered) ensures x in Blocks(db, C.PolicyTriggered) || x == e.m.block {
      var id :| id in ts' && ts'[id].m.block == x;
    }
  }

  // ---- one block ----

  /** Every event of block b is plausible where it is handled. */
  ghost predicate PlausibleBlock(db: Db, es: seq<Event>, b: nat) {
    forall i :: 0 <= i < |es| ==> Plausible(Fold(db, es[..i]), es[i], b)
  }

  lemma {:induction false} BlockExtends(db: Db, es: seq<Event>, top: nat, b: nat, st: C.Stream)
    requires TablesOk(db, top) && top < b && PlausibleBlock(db, es, b)
    ensures Extends(db, Fold(db, es), st, b)
    ensures TablesOk(Fold(db, es), if es == [] then top else b)
  {
    if es != [] {
      var n := |es| - 1;
      forall i | 0 <= i < n ensures Plausible(Fold(db, es[..n][..i]), es[..n][i], b) {
        assert es[..n][..i] == es[..i];
      }
      BlockExtends(db, es[..n], top, b, st);
      StepExtends(Fold(db, es[..n]), es[n], b, st) by { Relax(Fold(db, es[..n]), if n == 0 then top else b, b); }
      Relax(Fold(db, es[..n]), if n == 0 then top else b, b);
      StepKeepsTables(Fold(db, es[..n]), es[n], b);
    }
  }

  lemma Relax(db: Db, top: nat, b: nat)
    requires TablesOk(db, top) && top <= b
    ensures TablesOk(db, b)
  {
  }

  /** MAX of a set of blocks, 0 when empty. */
  ghost predicate IsMax(blocks: set<nat>, top: nat) {
    (forall x :: x in blocks ==> x <= top) && (top == 0 || top in blocks)
  }

  /** The emitter's picture of one stream is what Postgres would answer. */
  ghost predicate Shows(s: C.State, st: C.Stream, db: Db) {
    C.View(s, st) == View(db, st) && IsMax(Blocks(db, st), C.Top(s, st))
  }

  lemma BlocksBelow(db: Db, top: nat, st: C.Stream)
    requires TablesOk(db, top)
    ensures forall x :: x in Blocks(db, st) ==> x <= top
    ensures forall r :: r in View(db, st) ==> r.block <= top
  {
  }

  /** Handling a block is the emitter's `Index` step of each stream (or, when the block touches nothing the
      stream's MAX ranges over, no step at all): rows are only added, all of this block, above the old MAX. */
  lemma BlockIsIndexStep(s: C.State, db: Db, es: seq<Event>, top: nat, b: nat, st: C.Stream)
    requires TablesOk(db, top) && top < b && PlausibleBlock(db, es, b) && Shows(s, st, db)
    ensures var rows := View(Fold(db, es), st) - View(db, st);
            && Shows(if b in Blocks(Fold(db, es), st) then C.Apply(s, C.Index(st, rows, b)) else s, st, Fold(db, es))
            && (b in Blocks(Fold(db, es), st) ==> C.Enabled(s, C.Index(st, rows, b)))
            && (forall r :: r in rows ==> r.block == b)
  {
    var db' := Fold(db, es);
    BlockExtends(db, es, top, b, st);
    BlocksBelow(db, top, st);
    RowBlocks(db', if es == [] then top else b, st);
    if b in Blocks(db', st) {
      ExtensionIsIndex(s, db, db', top, b, st);
    } else {
      assert Blocks(db', st) == Blocks(db, st);
      assert View(db', st) == View(db, st);
    }
  }

  lemma ExtensionIsIndex(s: C.State, db: Db, db': Db, top: nat, b: nat, st: C.Stream)
    requires Extends(db, db', st, b) && Shows(s, st, db) && top < b && b in Blocks(db', st)
    requires forall x :: x in Blocks(db, st) ==> x <= top
    requires forall r :: r in View(db, st) ==> r.block <= top
    ensures var rows := View(db', st) - View(db, st);
            && C.Enabled(s, C.Index(st, rows, b))
            && Shows(C.Apply(s, C.Index(st, rows, b)), st, db')
  {
    var rows := View(db', st) - View(db, st);
    assert C.View(s, st) + rows == View(db', st);
    assert C.Top(s, st) <= top;
  }

  /** Every row of a stream has its block among those the stream's MAX ranges over. */
  lemma RowBlocks(db: Db, top: nat, st: C.Stream)
    requires TablesOk(db, top)
    ensures forall r :: r in View(db, st) ==> r.block in Blocks(db, st)
  {
  }
}
