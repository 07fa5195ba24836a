/** listActiveListings of src/db/database.ts: filter, three orders, LIMIT/OFFSET and the total. */
module ListingPages {
  import opened Basics
  import opened Paging
  import M = Marketplace

  /** A row of `listings`: its AUTOINCREMENT id and created_at (milliseconds, whole seconds). */
  datatype Row = Row(id: nat, listing: M.Listing, created: nat)

  datatype SortBy = PriceAsc | PriceDesc | CreatedDesc   // listedAt-desc is an alias of createdAt-desc

  /** The WHERE clause. */
  predicate Wanted(row: Row, maxPrice: Option<nat>) {
    row.listing.status == M.Active && (maxPrice.Some? ==> row.listing.total <= maxPrice.value)
  }

  function Matching(table: seq<Row>, maxPrice: Option<nat>): seq<Row> {
    if table == [] then [] else
    var n := |table| - 1;
    Matching(table[..n], maxPrice) + if Wanted(table[n], maxPrice) then [table[n]] else []
  }

  predicate Before(sortBy: SortBy, x: Row, y: Row) {
    match sortBy
    case PriceAsc => x.listing.total < y.listing.total || (x.listing.total == y.listing.total && x.id < y.id)
    case PriceDesc => x.listing.total > y.listing.total || (x.listing.total == y.listing.total && x.id > y.id)
    case CreatedDesc => x.created > y.created || (x.created == y.created && x.id > y.id)
  }

  function Order(sortBy: SortBy): (Row, Row) -> bool {
    (x, y) => Before(sortBy, x, y)
  }

  /** PRIMARY KEY. */
  predicate DistinctIds(table: seq<Row>) {
    forall i, j :: 0 <= i < j < |table| ==> table[i].id != table[j].id
  }

  /** Exactly the active rows within the price, each once. */
  lemma {:induction false} MatchingIsExact(table: seq<Row>, maxPrice: Option<nat>, row: Row)
    requires DistinctIds(table)
    ensures row in Matching(table, maxPrice) <==> row in table && Wanted(row, maxPrice)
    ensures DistinctIds(Matching(table, maxPrice))
  {
    if table != [] {
      var n := |table| - 1;
      MatchingIsExact(table[..n], maxPrice, row);
      var some := Matching(table[..n], maxPrice);
      forall i | 0 <= i < |some| ensures some[i].id != table[n].id {
        MatchingIsExact(table[..n], maxPrice, some[i]);
      }
      assert table == table[..n] + [table[n]];
    }
  }

  /** That is: an inactive listing never, a listing dearer than the bound never, any other always. */
  lemma ActiveWithinPrice(table: seq<Row>, maxPrice: Option<nat>, row: Row)
    requires DistinctIds(table)
    ensures row in Matching(table, maxPrice) <==>
              row in table && row.listing.status.Active? && (maxPrice.None? || row.listing.total <= maxPrice.value)
  {
    MatchingIsExact(table, maxPrice, row);
  }

  lemma OrdersDecide(rows: seq<Row>, sortBy: SortBy)
    requires DistinctIds(rows)
    ensures Decides(rows, Order(sortBy))
  {
    var before := Order(sortBy);
    forall i, j | 0 <= i < |rows| && 0 <= j < |rows| && i != j ensures before(rows[i], rows[j]) || before(rows[j], rows[i]) {
      assert rows[i].id != rows[j].id;
    }
  }

  lemma MatchingDecides(table: seq<Row>, maxPrice: Option<nat>, sortBy: SortBy)
    requires DistinctIds(table)
    ensures Decides(Matching(table, maxPrice), Order(sortBy))
  {
    if table != [] { MatchingIsExact(table, maxPrice, table[0]); }
    OrdersDecide(Matching(table, maxPrice), sortBy);
  }

  /** The page is cut from the one and only answer ORDER BY allows, whichever way the database arrives at it;
      `total` counts every match, not the page. */
  method ListActiveListings(table: seq<Row>, maxPrice: Option<nat>, sortBy: SortBy, limit: nat, offset: nat)
    returns (rows: seq<Row>, total: nat)
    requires DistinctIds(table)
    ensures exists a :: Answer(Matching(table, maxPrice), Order(sortBy), a)
    ensures forall a :: Answer(Matching(table, maxPrice), Order(sortBy), a) ==> rows == Page(a, offset, limit)
    ensures total == |Matching(table, maxPrice)|
  {
    var matching, sorted, i := [], [], 0;
    var before := Order(sortBy);
    while i < |table|
      invariant i <= |table| && matching == Matching(table[..i], maxPrice) && sorted == Sort(matching, before)
    {
      assert table[..i + 1][..i] == table[..i];
      if Wanted(table[i], maxPrice) {
        assert (matching + [table[i]])[..|matching|] == matching;
        matching := matching + [table[i]];
        sorted := Insert(table[i], sorted, before);
      }
      i := i + 1;
    }
    assert table[..i] == table;
    rows, total := Page(sorted, offset, limit), |matching|;
    OnlyAnswer(table, maxPrice, sortBy);
  }

  lemma OnlyAnswer(table: seq<Row>, maxPrice: Option<nat>, sortBy: SortBy)
    requires DistinctIds(table)
    ensures var a := Sort(Matching(table, maxPrice), Order(sortBy));
            && Answer(Matching(table, maxPrice), Order(sortBy), a)
            && forall b :: Answer(Matching(table, maxPrice), Order(sortBy), b) ==> b == a
  {
    var m, before := Matching(table, maxPrice), Order(sortBy);
    MatchingDecides(table, maxPrice, sortBy);
    SortAnswers(m, before);
    forall b | Answer(m, before, b) ensures b == Sort(m, before) {
      OneAnswer(m, before, b, Sort(m, before));
    }
  }

  /** Under every order, the pages of a walk over one snapshot concatenate to all matches, in strict order, each match
      once; `total` is their count. */
  lemma ListingPagesAreLossless(table: seq<Row>, maxPrice: Option<nat>, sortBy: SortBy, limit: nat, answer: seq<Row>)
    requires DistinctIds(table) && limit > 0 && Answer(Matching(table, maxPrice), Order(sortBy), answer)
    ensures Concat(Walk(answer, 0, limit)) == answer && Strict(answer, Order(sortBy))
    ensures |answer| == |Matching(table, maxPrice)|
    ensures forall row :: multiset(answer)[row] == if row in table && Wanted(row, maxPrice) then 1 else 0
  {
    var m := Matching(table, maxPrice);
    WalkIsLossless(answer, 0, limit);
    MatchingDecides(table, maxPrice, sortBy);
    DecidesAnswer(m, Order(sortBy), answer);
    assert |answer| == |multiset(answer)| == |multiset(m)| == |m|;
    forall row ensures multiset(answer)[row] == if row in table && Wanted(row, maxPrice) then 1 else 0 {
      EachMatchOnce(table, maxPrice, sortBy, row);
    }
  }

  lemma EachMatchOnce(table: seq<Row>, maxPrice: Option<nat>, sortBy: SortBy, row: Row)
    requires DistinctIds(table)
    ensures multiset(Matching(table, maxPrice))[row] == if row in table && Wanted(row, maxPrice) then 1 else 0
  {
    MatchingIsExact(table, maxPrice, row);
    MatchingDecides(table, maxPrice, sortBy);
    NoneTwice(Matching(table, maxPrice), Order(sortBy), row);
  }

  /** What the orders are: prices never fall, prices never rise, or creation times never rise; equal ones go by id, upwards
      only for rising prices. */
  lemma AnswersAreSorted(table: seq<Row>, maxPrice: Option<nat>, sortBy: SortBy, answer: seq<Row>, i: nat, j: nat)
    requires DistinctIds(table) && Answer(Matching(table, maxPrice), Order(sortBy), answer) && i < j < |answer|
    ensures var x, y := answer[i], answer[j];
            && (sortBy.PriceAsc? ==> x.listing.total <= y.listing.total && (x.listing.total == y.listing.total ==> x.id < y.id))
            && (sortBy.PriceDesc? ==> x.listing.total >= y.listing.total && (x.listing.total == y.listing.total ==> x.id > y.id))
            && (sortBy.CreatedDesc? ==> x.created >= y.created && (x.created == y.created ==> x.id > y.id))
  {
    MatchingDecides(table, maxPrice, sortBy);
    DecidesAnswer(Matching(table, maxPrice), Order(sortBy), answer);
    assert Order(sortBy)(answer[i], answer[j]);
  }

  /** The answers to two queries over the same snapshot are the same, so pages never overlap or leave a gap. */
  lemma PagesAgree(table: seq<Row>, maxPrice: Option<nat>, sortBy: SortBy, a: seq<Row>, b: seq<Row>)
    requires DistinctIds(table)
    requires Answer(Matching(table, maxPrice), Order(sortBy), a) && Answer(Matching(table, maxPrice), Order(sortBy), b)
    ensures a == b
  {
    OnlyAnswer(table, maxPrice, sortBy);
  }
}
