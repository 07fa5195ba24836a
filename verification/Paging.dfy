/** Sorting and paging: what ORDER BY or Array.prototype.sort with a comparator may answer, and the walk a client
    makes over LIMIT/OFFSET pages until there is nothing more. */
module Paging {
  /** No row comes strictly before an earlier one: all a sort promises. */
  ghost predicate Ordered<T(!new)>(s: seq<T>, before: (T, T) -> bool) {
    forall i, j :: 0 <= i < j < |s| ==> !before(s[j], s[i])
  }

  /** The comparator tells every two rows at different places apart, one way only. */
  ghost predicate Decides<T(!new)>(s: seq<T>, before: (T, T) -> bool) {
    && (forall i, j :: 0 <= i < |s| && 0 <= j < |s| && i != j ==> before(s[i], s[j]) || before(s[j], s[i]))
    && (forall x, y :: before(x, y) ==> !before(y, x))
    && (forall x, y, z :: before(x, y) && before(y, z) ==> before(x, z))
  }

  /** An answer to a query over s ordered by `before`: some ordered arrangement of the same rows. */
  ghost predicate Answer<T(!new)>(s: seq<T>, before: (T, T) -> bool, answer: seq<T>) {
    multiset(answer) == multiset(s) && Ordered(answer, before)
  }

  function Insert<T>(x: T, s: seq<T>, before: (T, T) -> bool): seq<T> {
    if s == [] then [x] else if before(x, s[0]) then [x] + s else [s[0]] + Insert(x, s[1..], before)
  }

  function Sort<T>(s: seq<T>, before: (T, T) -> bool): seq<T> {
    if s == [] then [] else Insert(s[|s| - 1], Sort(s[..|s| - 1], before), before)
  }

  lemma {:induction false} InsertKeeps<T>(x: T, s: seq<T>, before: (T, T) -> bool)
    ensures multiset(Insert(x, s, before)) == multiset(s) + multiset{x}
  {
    if s != [] {
      assert s == [s[0]] + s[1..];
      if !before(x, s[0]) { InsertKeeps(x, s[1..], before); }
    }
  }

  lemma {:induction false} InsertOrders<T(!new)>(x: T, s: seq<T>, before: (T, T) -> bool)
    requires Ordered(s, before)
    requires forall x, y :: before(x, y) ==> !before(y, x)
    requires forall x, y, z :: before(x, y) && before(y, z) ==> before(x, z)
    requires forall i :: 0 <= i < |s| ==> before(x, s[i]) || before(s[i], x)
    ensures Ordered(Insert(x, s, before), before)
  {
    if s != [] && !before(x, s[0]) {
      var t := Insert(x, s[1..], before);
      InsertOrders(x, s[1..], before);
      InsertKeeps(x, s[1..], before);
      forall j | 0 <= j < |t| ensures !before(t[j], s[0]) {
        assert t[j] in multiset(t);
        if t[j] != x { assert t[j] in multiset(s[1..]); }
      }
    } else if s != [] {
      var first := s[0];
      forall j | 0 <= j < |s| ensures !before(s[j], x) {
        var y := s[j];
        assert j > 0 ==> !before(y, first);
      }
    }
  }

  lemma {:induction false} SortAnswers<T(!new)>(s: seq<T>, before: (T, T) -> bool)
    requires Decides(s, before)
    ensures Answer(s, before, Sort(s, before))
  {
    if s != [] {
      var n := |s| - 1;
      var t := Sort(s[..n], before);
      SortAnswers(s[..n], before);
      assert s == s[..n] + [s[n]];
      InsertKeeps(s[n], t, before);
      forall i | 0 <= i < |t| ensures before(s[n], t[i]) || before(t[i], s[n]) {
        assert t[i] in multiset(s[..n]);
        var k :| 0 <= k < n && s[..n][k] == t[i];
        assert s[k] == t[i];
      }
      InsertOrders(s[n], t, before);
    }
  }

  /** There is only one answer, so two calls over the same rows page through the same arrangement. */
  lemma {:induction false} OneAnswer<T(!new)>(s: seq<T>, before: (T, T) -> bool, a: seq<T>, b: seq<T>)
    requires Decides(s, before) && Answer(s, before, a) && Answer(s, before, b)
    ensures a == b
  {
    DecidesAnswer(s, before, a);
    DecidesAnswer(s, before, b);
    OneArrangement(a, b, before);
  }

  /** A strictly ordered sequence. */
  ghost predicate Strict<T(!new)>(s: seq<T>, before: (T, T) -> bool) {
    forall i, j :: 0 <= i < j < |s| ==> before(s[i], s[j])
  }

  /** What Decides says of places, said of an arrangement's own places: rows repeat nowhere. */
  lemma DecidesAnswer<T(!new)>(s: seq<T>, before: (T, T) -> bool, a: seq<T>)
    requires Decides(s, before) && Answer(s, before, a)
    ensures Strict(a, before)
  {
    forall i, j | 0 <= i < j < |a| ensures before(a[i], a[j]) {
      var x, y := a[i], a[j];
      TwoPlaces(a, i, j);
      NoneTwice(s, before, x);
      assert x in multiset(a) && y in multiset(a);
      assert x in s && y in s;
      var p, q :| 0 <= p < |s| && 0 <= q < |s| && s[p] == x && s[q] == y;
    }
  }

  lemma NoneTwice<T(!new)>(s: seq<T>, before: (T, T) -> bool, x: T)
    requires Decides(s, before)
    ensures multiset(s)[x] <= 1
  {
    if multiset(s)[x] >= 2 {
      var p, q := OccursTwice(s, x);
      assert false;
    }
  }

  lemma TwoPlaces<T>(a: seq<T>, i: nat, j: nat)
    requires i < j < |a|
    ensures a[i] == a[j] ==> multiset(a)[a[i]] >= 2
  {
    assert a == a[..i] + [a[i]] + a[i + 1..j] + [a[j]] + a[j + 1..];
  }

  lemma {:induction false} OccursTwice<T>(s: seq<T>, x: T) returns (p: nat, q: nat)
    requires multiset(s)[x] >= 2
    ensures p < q < |s| && s[p] == x && s[q] == x
  {
    var n := |s| - 1;
    assert s == s[..n] + [s[n]];
    if s[n] == x {
      assert x in multiset(s[..n]);
      p :| 0 <= p < n && s[..n][p] == x;
      q := n;
    } else {
      p, q := OccursTwice(s[..n], x);
    }
  }

  lemma {:induction false} OneArrangement<T(!new)>(a: seq<T>, b: seq<T>, before: (T, T) -> bool)
    requires multiset(a) == multiset(b) && Strict(a, before) && Strict(b, before)
    requires forall x, y :: before(x, y) ==> !before(y, x)
    ensures a == b
  {
    assert |a| == |multiset(a)| == |multiset(b)| == |b|;
    if a != [] {
      SameFirst(a, b, before);
      SameRest(a, b);
      assert Strict(a[1..], before) && Strict(b[1..], before);
      OneArrangement(a[1..], b[1..], before);
      assert a == [a[0]] + a[1..] && b == [b[0]] + b[1..];
    }
  }

  lemma SameFirst<T(!new)>(a: seq<T>, b: seq<T>, before: (T, T) -> bool)
    requires a != [] && b != [] && multiset(a) == multiset(b) && Strict(a, before) && Strict(b, before)
    requires forall x, y :: before(x, y) ==> !before(y, x)
    ensures a[0] == b[0]
  {
    assert a[0] in multiset(b) && b[0] in multiset(a);
    var i :| 0 <= i < |b| && b[i] == a[0];
    var j :| 0 <= j < |a| && a[j] == b[0];
    var x, y := a[0], b[0];
    assert i > 0 ==> before(y, x);
    assert j > 0 ==> before(x, y);
  }

  lemma SameRest<T>(a: seq<T>, b: seq<T>)
    requires a != [] && b != [] && multiset(a) == multiset(b) && a[0] == b[0]
    ensures multiset(a[1..]) == multiset(b[1..])
  {
    assert a == [a[0]] + a[1..] && b == [b[0]] + b[1..];
    assert multiset(a) == multiset{a[0]} + multiset(a[1..]) && multiset(b) == multiset{a[0]} + multiset(b[1..]);
    assert multiset(a[1..]) == multiset(a) - multiset{a[0]};
  }

  // ---- pages ----

  function Min(a: nat, b: nat): nat { if a <= b then a else b }

  /** LIMIT/OFFSET, and slice(offset, offset + limit). */
  function Page<T>(s: seq<T>, offset: nat, limit: nat): seq<T> {
    s[Min(offset, |s|)..Min(offset + limit, |s|)]
  }

  predicate HasMore<T>(s: seq<T>, offset: nat, limit: nat) {
    offset + |Page(s, offset, limit)| < |s|
  }

  /** The pages a client reads, from `offset`, until there is no more. */
  function Walk<T>(s: seq<T>, offset: nat, limit: nat): seq<seq<T>>
    requires limit > 0
    decreases |s| - offset
  {
    [Page(s, offset, limit)] + if HasMore(s, offset, limit) then Walk(s, offset + limit, limit) else []
  }

  function Concat<T>(pages: seq<seq<T>>): seq<T> {
    if pages == [] then [] else pages[0] + Concat(pages[1..])
  }

  /** A walk from any offset ends and reads exactly the rows from there on, in order, each once;
      every page but the last is full, so there are no more pages than it takes. */
  lemma {:induction false} WalkIsLossless<T>(s: seq<T>, offset: nat, limit: nat)
    requires limit > 0
    ensures Concat(Walk(s, offset, limit)) == s[Min(offset, |s|)..]
    ensures offset < |s| ==> offset + (|Walk(s, offset, limit)| - 1) * limit < |s| <= offset + |Walk(s, offset, limit)| * limit
    ensures offset >= |s| ==> |Walk(s, offset, limit)| == 1
    ensures forall k :: 0 <= k < |Walk(s, offset, limit)| - 1 ==> |Walk(s, offset, limit)[k]| == limit
    decreases |s| - offset
  {
    var page := Page(s, offset, limit);
    if HasMore(s, offset, limit) {
      assert |page| == limit;
      WalkIsLossless(s, offset + limit, limit);
      var rest := Walk(s, offset + limit, limit);
      assert ([page] + rest)[1..] == rest;
      assert page + s[offset + limit..] == s[offset..];
      OneMore(|rest|, limit);
    } else {
      assert [page][1..] == [];
    }
  }

  lemma OneMore(c: int, limit: int)
    ensures (c + 1) * limit == c * limit + limit && (c + 1 - 1) * limit == (c - 1) * limit + limit
  {
  }
}
