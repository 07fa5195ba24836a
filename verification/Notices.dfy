/** Which logs each of the six streams shows, and whose wallet it names, read off the log alone
    (src/services/chainEvents.ts:40-200 over the rows of indexer/src/index.ts). */
module Notices {
  import opened Basics
  import opened RowKeys
  import opened Indexer
  import opened Columns
  import StreamViews
  import C = ChainEvents

  /** The listing's last update after its first Listed log is the buy b, the last buy. */
  predicate SoldBy(log: seq<Event>, p: nat, b: nat, id: string) {
    LastOf(log, p, b, id, false) && Fills(log[b], id)
  }

  /** Log p makes the stream show r; q is the log that says whose it is. */
  predicate Noticed(log: seq<Event>, st: C.Stream, r: C.Row, p: nat, q: nat) {
    match st
    case PolicyPurchased => FirstInsert(log, p, PolicyId(r.key)) && r.block == log[p].m.block && r.wallet == log[p].buyer
    case PolicyTriggered =>
      && FirstInsert(log, p, TriggerId(r.key)) && FirstInsert(log, q, PolicyId(PolicyKey(log[p].product, log[p].policy)))
      && r.block == log[p].m.block && r.wallet == log[q].buyer
    case BondMinted => FirstInsert(log, p, BondId(r.key)) && log[p].BondIssued? && r.block == log[p].m.block && r.wallet == log[p].to
    case BondRedeemed => FirstInsert(log, p, BondId(r.key)) && log[p].BondRedeemed? && r.block == log[p].m.block && r.wallet == log[p].holder
    case ListingCreated => FirstInsert(log, p, ListingId(r.key)) && r.block == log[p].m.block && r.wallet == log[p].seller
    case ListingPurchased =>
      FirstInsert(log, q, ListingId(r.key)) && SoldBy(log, q, p, r.key) && r.block == log[p].m.block && r.wallet == log[q].seller
  }

  lemma FindInsert(log: seq<Event>, k: Key) returns (p: nat)
    requires Present(Fold(Empty, log), k)
    ensures FirstInsert(log, p, k) && Shows(Fold(Empty, log), k, log[p])
  {
    p := 0;
    while p < |log| && !Inserts(log[p], k)
      invariant p <= |log| && forall i :: 0 <= i < p ==> !Inserts(log[i], k)
    {
      p := p + 1;
    }
    if p == |log| { AbsentUntilInserted(log, k); }
    RowIsFirstLog(log, p, k);
  }

  ghost predicate IsNoticed(log: seq<Event>, st: C.Stream, r: C.Row) {
    exists p: nat, q: nat :: Noticed(log, st, r, p, q)
  }

  lemma FromInsert(log: seq<Event>, p: nat, k: Key)
    requires FirstInsert(log, p, k)
    ensures Present(Fold(Empty, log), k) && Shows(Fold(Empty, log), k, log[p])
  {
    RowIsFirstLog(log, p, k);
  }

  // ---- the streams of rows written once ----

  lemma WrittenOnceShown(log: seq<Event>, st: C.Stream, r: C.Row)
    requires !st.PolicyTriggered? && !st.ListingPurchased? && r in StreamViews.View(Fold(Empty, log), st)
    ensures IsNoticed(log, st, r)
  {
    var p := FindInsert(log, if st.PolicyPurchased? then PolicyId(r.key) else if st.ListingCreated? then ListingId(r.key) else BondId(r.key));
    assert Noticed(log, st, r, p, 0);
  }

  lemma WrittenOnceNoticed(log: seq<Event>, st: C.Stream, r: C.Row, p: nat, q: nat)
    requires !st.PolicyTriggered? && !st.ListingPurchased? && Noticed(log, st, r, p, q)
    ensures r in StreamViews.View(Fold(Empty, log), st)
  {
    FromInsert(log, p, if st.PolicyPurchased? then PolicyId(r.key) else if st.ListingCreated? then ListingId(r.key) else BondId(r.key));
  }

  // ---- triggers ----

  lemma TriggerShown(log: seq<Event>, r: C.Row)
    requires r in StreamViews.View(Fold(Empty, log), C.PolicyTriggered)
    ensures IsNoticed(log, C.PolicyTriggered, r)
  {
    var db := Fold(Empty, log);
    var id, pid :| id in db.triggers && pid in db.policies && StreamViews.Joins(db.triggers[id], db.policies[pid])
                   && r == C.Row(id, db.triggers[id].m.block, db.policies[pid].buyer);
    var p := FindInsert(log, TriggerId(id));
    var q := FindInsert(log, PolicyId(pid));
    assert Noticed(log, C.PolicyTriggered, r, p, q);
  }

  lemma TriggerNoticed(log: seq<Event>, r: C.Row, p: nat, q: nat)
    requires Noticed(log, C.PolicyTriggered, r, p, q)
    ensures r in StreamViews.View(Fold(Empty, log), C.PolicyTriggered)
  {
    var pid := PolicyKey(log[p].product, log[p].policy);
    FromInsert(log, p, TriggerId(r.key));
    FromInsert(log, q, PolicyId(pid));
    PolicyKeyInjective(log[p].product, log[p].policy, log[q].product, log[q].policy);
    assert StreamViews.Joins(Fold(Empty, log).triggers[r.key], Fold(Empty, log).policies[pid]);
  }

  // ---- sales ----

  /** The last cancel or buy of a listing after its first Listed log, if there is one. */
  lemma FindLast(log: seq<Event>, p: nat, id: string) returns (b: nat)
    requires p < |log|
    ensures LastOf(log, p, b, id, false) || (b == p && forall j :: p < j < |log| ==> !Fills(log[j], id) && !Cancels(log[j], id))
  {
    b := |log| - 1;
    while b > p && !Fills(log[b], id) && !Cancels(log[b], id)
      invariant p <= b < |log| && forall j :: b < j < |log| ==> !Fills(log[j], id) && !Cancels(log[j], id)
    {
      b := b - 1;
    }
  }

  lemma SaleShown(log: seq<Event>, r: C.Row)
    requires r in StreamViews.View(Fold(Empty, log), C.ListingPurchased)
    ensures IsNoticed(log, C.ListingPurchased, r)
  {
    var q := FindInsert(log, ListingId(r.key));
    ListingIsLastUpdate(log, q, r.key);
    var b := FindLast(log, q, r.key);
    if LastOf(log, q, b, r.key, false) && Fills(log[b], r.key) {
      assert LastOf(log, q, b, r.key, true);
      assert Noticed(log, C.ListingPurchased, r, b, q);
    }
  }

  lemma SaleNoticed(log: seq<Event>, r: C.Row, p: nat, q: nat)
    requires Noticed(log, C.ListingPurchased, r, p, q)
    ensures r in StreamViews.View(Fold(Empty, log), C.ListingPurchased)
  {
    FromInsert(log, q, ListingId(r.key));
    ListingIsLastUpdate(log, q, r.key);
    assert LastOf(log, q, p, r.key, true);
    assert StreamViews.Sold(Fold(Empty, log).listings[r.key]);
  }

  /** Over every log, what each stream shows and to whom: the first purchase log of a policy to its buyer; the first log of a
      trigger whose policy was bought to the policy's buyer, not the submitter; a bond log to its receiver or
      holder; the first Listed log of a listing to its seller; and the last buy of a listing that nothing
      follows to that seller, not the buyer. Nothing else is shown, and each at its own log's block. */
  lemma ShownIff(log: seq<Event>, st: C.Stream, r: C.Row)
    ensures r in StreamViews.View(Fold(Empty, log), st) <==> exists p: nat, q: nat :: Noticed(log, st, r, p, q)
  {
    if r in StreamViews.View(Fold(Empty, log), st) {
      match st
      case PolicyTriggered => TriggerShown(log, r);
      case ListingPurchased => SaleShown(log, r);
      case _ => WrittenOnceShown(log, st, r);
    }
    if IsNoticed(log, st, r) {
      var p: nat, q: nat :| Noticed(log, st, r, p, q);
      match st
      case PolicyTriggered => TriggerNoticed(log, r, p, q);
      case ListingPurchased => SaleNoticed(log, r, p, q);
      case _ => WrittenOnceNoticed(log, st, r, p, q);
    }
  }

  /** The head of the trigger stream counts every trigger's block, its policy bought or not; that of the other streams the
      blocks of the rows they show. */
  lemma HeadBlocks(log: seq<Event>, st: C.Stream, x: nat)
    ensures st.PolicyTriggered? ==>
              (x in StreamViews.Blocks(Fold(Empty, log), st) <==> exists p: nat, id :: FirstInsert(log, p, TriggerId(id)) && log[p].m.block == x)
    ensures !st.PolicyTriggered? ==>
              (x in StreamViews.Blocks(Fold(Empty, log), st) <==> exists p: nat, q: nat, r :: Noticed(log, st, r, p, q) && r.block == x)
  {
    if st.PolicyTriggered? {
      TriggerHeadBlocks(log, x);
    } else {
      RowHeadBlocks(log, st, x);
    }
  }

  lemma TriggerHeadBlocks(log: seq<Event>, x: nat)
    ensures x in StreamViews.Blocks(Fold(Empty, log), C.PolicyTriggered) <==>
              exists p: nat, id :: FirstInsert(log, p, TriggerId(id)) && log[p].m.block == x
  {
    var ts := Fold(Empty, log).triggers;
    if x in StreamViews.Blocks(Fold(Empty, log), C.PolicyTriggered) {
      var id :| id in ts && ts[id].m.block == x;
      var p := FindInsert(log, TriggerId(id));
    }
    forall p: nat, id | FirstInsert(log, p, TriggerId(id)) && log[p].m.block == x
      ensures x in StreamViews.Blocks(Fold(Empty, log), C.PolicyTriggered)
    {
      FromInsert(log, p, TriggerId(id));
      assert id in ts && ts[id].m.block == x;
    }
  }

  lemma RowHeadBlocks(log: seq<Event>, st: C.Stream, x: nat)
    requires !st.PolicyTriggered?
    ensures x in StreamViews.Blocks(Fold(Empty, log), st) <==> exists p: nat, q: nat, r :: Noticed(log, st, r, p, q) && r.block == x
  {
    var db := Fold(Empty, log);
    StreamViews.BlocksOfView(db, st);
    if x in StreamViews.Blocks(db, st) {
      var r :| r in StreamViews.View(db, st) && r.block == x;
      ShownIff(log, st, r);
    }
    forall p: nat, q: nat, r | Noticed(log, st, r, p, q) && r.block == x ensures x in StreamViews.Blocks(db, st) {
      ShownIff(log, st, r);
    }
  }
}
