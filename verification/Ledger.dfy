/** Net holdings: the `/bonds/by-owner` query of src/routes/indexer.ts over bond_transfer, against executed
    ERC-1155 balances. */
module Ledger {
  import opened Basics
  import opened RowKeys
  import opened Indexer

  const ZERO: string := "0x0000000000000000000000000000000000000000"

  /** One executed movement of a token id. */
  datatype Move = Move(from: string, to: string, epoch: nat, amount: nat)

  // ---- executing transfers ----

  type Balances = map<(string, nat), nat>

  function Get(b: Balances, owner: string, epoch: nat): nat {
    if (owner, epoch) in b then b[(owner, epoch)] else 0
  }

  /** A sender other than the zero address must hold what it sends. */
  predicate CanMove(b: Balances, x: Move) {
    x.from == ZERO || Get(b, x.from, x.epoch) >= x.amount
  }

  function DoMove(b: Balances, x: Move): Balances
    requires CanMove(b, x)
  {
    var b1 := if x.from == ZERO then b else b[(x.from, x.epoch) := Get(b, x.from, x.epoch) - x.amount];
    if x.to == ZERO then b1 else b1[(x.to, x.epoch) := Get(b1, x.to, x.epoch) + x.amount]
  }

  /** None when some account would send more than it holds. */
  function Execute(xs: seq<Move>): Option<Balances> {
    if xs == [] then Some(map[]) else
      var b := Execute(xs[..|xs| - 1]);
      if b.Some? && CanMove(b.value, xs[|xs| - 1]) then Some(DoMove(b.value, xs[|xs| - 1])) else None
  }

  // ---- the query ----

  /** SUM(amount) FILTER (WHERE to = owner), within one epoch. */
  function Received(rows: seq<TransferRow>, owner: string, epoch: nat): nat {
    if rows == [] then 0 else
      var r := rows[|rows| - 1];
      Received(rows[..|rows| - 1], owner, epoch) + (if r.to == owner && r.epoch == epoch then r.amount else 0)
  }

  function Sent(rows: seq<TransferRow>, owner: string, epoch: nat): nat {
    if rows == [] then 0 else
      var r := rows[|rows| - 1];
      Sent(rows[..|rows| - 1], owner, epoch) + (if r.from == owner && r.epoch == epoch then r.amount else 0)
  }

  function Net(rows: seq<TransferRow>, owner: string, epoch: nat): int {
    Received(rows, owner, epoch) - Sent(rows, owner, epoch)
  }

  /** WHERE to = owner OR from = owner GROUP BY epoch_id HAVING net > 0. */
  function ByOwner(rows: seq<TransferRow>, owner: string): map<nat, int> {
    map r | r in rows && (r.to == owner || r.from == owner) && Net(rows, owner, r.epoch) > 0
      :: r.epoch := Net(rows, owner, r.epoch)
  }

  // ---- the table holds exactly the executed movements ----

  /** The movements of one event; a batch is its sequence of single legs. */
  function MovesOf(e: Event): seq<Move> {
    match e
    case TransferSingle(from, to, id, value, _) => [Move(from, to, id, value)]
    case TransferBatch(from, to, legs, _) => seq(|legs|, i requires 0 <= i < |legs| => Move(from, to, legs[i].0, legs[i].1))
    case _ => []
  }

  function Moves(log: seq<Event>): seq<Move> {
    if log == [] then [] else Moves(log[..|log| - 1]) + MovesOf(log[|log| - 1])
  }

  function AsMoves(rows: seq<TransferRow>): seq<Move> {
    seq(|rows|, k requires 0 <= k < |rows| => Move(rows[k].from, rows[k].to, rows[k].epoch, rows[k].amount))
  }

  /** No two logs share a position on the chain. */
  predicate DistinctLogs(log: seq<Event>) {
    forall i, j :: 0 <= i < j < |log| ==> log[i].m.tx != log[j].m.tx || log[i].m.logIndex != log[j].m.logIndex
  }

  /** The ids an event's rows may carry. */
  ghost predicate IdOf(id: string, e: Event) {
    id == LogKey(e.m.tx, e.m.logIndex) || exists i :: id == LegKey(e.m.tx, e.m.logIndex, i)
  }

  lemma IdsDiffer(id: string, e: Event, f: Event)
    requires IdOf(id, e) && IdOf(id, f)
    ensures e.m.tx == f.m.tx && e.m.logIndex == f.m.logIndex
  {
    if id == LogKey(e.m.tx, e.m.logIndex) {
      if id == LogKey(f.m.tx, f.m.logIndex) {
        LogKeyInjective(e.m.tx, e.m.logIndex, f.m.tx, f.m.logIndex);
      } else {
        var j :| id == LegKey(f.m.tx, f.m.logIndex, j);
        LogKeyIsNoLegKey(e.m.tx, e.m.logIndex, f.m.tx, f.m.logIndex, j);
      }
    } else {
      var i :| id == LegKey(e.m.tx, e.m.logIndex, i);
      if id == LogKey(f.m.tx, f.m.logIndex) {
        LogKeyIsNoLegKey(f.m.tx, f.m.logIndex, e.m.tx, e.m.logIndex, i);
      } else {
        var j :| id == LegKey(f.m.tx, f.m.logIndex, j);
        LegKeyInjective(e.m.tx, e.m.logIndex, i, f.m.tx, f.m.logIndex, j);
      }
    }
  }

  lemma {:induction false} BatchInserts(rows: seq<TransferRow>, e: Event, n: nat)
    requires e.TransferBatch? && n <= |e.legs|
    requires forall k :: 0 <= k < |rows| ==> !IdOf(rows[k].id, e)
    ensures var rows' := PutLegs(rows, e, n);
            && |rows'| == |rows| + n && rows <= rows'
            && forall i :: 0 <= i < n ==> rows'[|rows| + i] == Leg(e, i)
  {
    if n > 0 {
      BatchInserts(rows, e, n - 1);
      var rows1 := PutLegs(rows, e, n - 1);
      forall k | 0 <= k < |rows1| ensures rows1[k].id != Leg(e, n - 1).id {
        if k < |rows| {
          assert rows1[k] == rows[k];
          assert IdOf(Leg(e, n - 1).id, e);
        } else {
          var i := k - |rows|;
          assert rows1[|rows| + i] == Leg(e, i);
          LegKeyInjective(e.m.tx, e.m.logIndex, i, e.m.tx, e.m.logIndex, n - 1);
        }
      }
    }
  }

  /** The rows one log brings, none of whose ids is taken. */
  function RowsOf(e: Event): seq<TransferRow> {
    match e
    case TransferSingle(from, to, id, value, m) => [TransferRow(LogKey(m.tx, m.logIndex), from, to, id, value, m)]
    case TransferBatch(_, _, legs, _) => seq(|legs|, i requires 0 <= i < |legs| => Leg(e, i))
    case _ => []
  }

  lemma RowsInserted(db: Db, e: Event)
    requires forall k :: 0 <= k < |db.transfers| ==> !IdOf(db.transfers[k].id, e)
    ensures Apply(db, e).transfers == db.transfers + RowsOf(e)
  {
    if e.TransferBatch? {
      BatchInserts(db.transfers, e, |e.legs|);
    }
  }

  lemma RowsAreMoves(e: Event)
    ensures AsMoves(RowsOf(e)) == MovesOf(e)
    ensures forall i :: 0 <= i < |RowsOf(e)| ==> IdOf(RowsOf(e)[i].id, e)
  {
  }

  /** What one new log adds to the table. */
  lemma EventInserts(db: Db, e: Event)
    requires forall k :: 0 <= k < |db.transfers| ==> !IdOf(db.transfers[k].id, e)
    ensures var rows' := Apply(db, e).transfers;
            && AsMoves(rows') == AsMoves(db.transfers) + MovesOf(e)
            && (forall k :: |db.transfers| <= k < |rows'| ==> IdOf(rows'[k].id, e))
            && db.transfers <= rows'
  {
    RowsInserted(db, e);
    RowsAreMoves(e);
    AsMovesAppend(db.transfers, RowsOf(e));
  }

  lemma AsMovesAppend(rows: seq<TransferRow>, more: seq<TransferRow>)
    ensures AsMoves(rows + more) == AsMoves(rows) + AsMoves(more)
  {
  }

  /** Insert-if-absent drops no real event: the table is the log's movements in order, batches expanded. */
  lemma {:induction false} TableIsLog(log: seq<Event>)
    requires DistinctLogs(log)
    ensures var rows := Fold(Empty, log).transfers;
            && AsMoves(rows) == Moves(log)
            && forall k :: 0 <= k < |rows| ==> exists i :: 0 <= i < |log| && IdOf(rows[k].id, log[i])
  {
    if log == [] {
      assert AsMoves([]) == [];
    } else {
      var n := |log| - 1;
      TableIsLog(log[..n]);
      var db := Fold(Empty, log[..n]);
      forall k | 0 <= k < |db.transfers| ensures !IdOf(db.transfers[k].id, log[n]) {
        var i :| 0 <= i < n && IdOf(db.transfers[k].id, log[..n][i]);
        if IdOf(db.transfers[k].id, log[n]) { IdsDiffer(db.transfers[k].id, log[i], log[n]); }
      }
      EventInserts(db, log[n]);
      var rows := Fold(Empty, log).transfers;
      forall k | 0 <= k < |rows| ensures exists i :: 0 <= i < |log| && IdOf(rows[k].id, log[i]) {
        if k < |db.transfers| {
          var i :| 0 <= i < n && IdOf(db.transfers[k].id, log[..n][i]);
          assert IdOf(rows[k].id, log[i]);
        } else {
          assert IdOf(rows[k].id, log[n]);
        }
      }
    }
  }

  // ---- received minus sent is the executed balance ----

  lemma {:induction false} NetIsBalance(rows: seq<TransferRow>, owner: string, epoch: nat)
    requires owner != ZERO && Execute(AsMoves(rows)).Some?
    ensures Net(rows, owner, epoch) == Get(Execute(AsMoves(rows)).value, owner, epoch)
  {
    if rows != [] {
      var n := |rows| - 1;
      assert AsMoves(rows)[..n] == AsMoves(rows[..n]);
      NetIsBalance(rows[..n], owner, epoch);
    }
  }

  /** For every valid transfer log (no account sends more than it holds): received - sent of the indexed table
      equals the executed balance of each (owner, epoch), so it is never negative, and the by-owner answer
      lists exactly the epochs with a positive balance, with that balance. */
  lemma HoldingsAreBalances(log: seq<Event>, owner: string, epoch: nat)
    requires DistinctLogs(log) && Execute(Moves(log)).Some? && owner != ZERO
    ensures var rows, b := Fold(Empty, log).transfers, Execute(Moves(log)).value;
            && Net(rows, owner, epoch) == Get(b, owner, epoch)
            && (epoch in ByOwner(rows, owner) <==> Get(b, owner, epoch) > 0)
            && (epoch in ByOwner(rows, owner) ==> ByOwner(rows, owner)[epoch] == Get(b, owner, epoch))
  {
    TableIsLog(log);
    var rows := Fold(Empty, log).transfers;
    NetIsBalance(rows, owner, epoch);
    if Net(rows, owner, epoch) > 0 {
      var r := SomeReceipt(rows, owner, epoch);
    }
  }

  lemma {:induction false} SomeReceipt(rows: seq<TransferRow>, owner: string, epoch: nat) returns (r: TransferRow)
    requires Received(rows, owner, epoch) > 0
    ensures r in rows && r.to == owner && r.epoch == epoch
  {
    var n := |rows| - 1;
    if rows[n].to == owner && rows[n].epoch == epoch {
      r := rows[n];
    } else {
      r := SomeReceipt(rows[..n], owner, epoch);
    }
  }

  // ---- supply ----

  function Minted(xs: seq<Move>, epoch: nat): nat {
    if xs == [] then 0 else
      var x := xs[|xs| - 1];
      Minted(xs[..|xs| - 1], epoch) + (if x.from == ZERO && x.epoch == epoch then x.amount else 0)
  }

  function Burned(xs: seq<Move>, epoch: nat): nat {
    if xs == [] then 0 else
      var x := xs[|xs| - 1];
      Burned(xs[..|xs| - 1], epoch) + (if x.to == ZERO && x.epoch == epoch then x.amount else 0)
  }

  /** The sum of an epoch's balances over a set of (owner, epoch) keys. */
  ghost function Sum(b: Balances, keys: set<(string, nat)>, epoch: nat): nat
    requires keys <= b.Keys
  {
    if keys == {} then 0 else
      var k :| k in keys;
      Sum(b, keys - {k}, epoch) + (if k.1 == epoch then b[k] else 0)
  }

  ghost function Supply(b: Balances, epoch: nat): nat {
    Sum(b, b.Keys, epoch)
  }

  lemma {:induction false} SumTakeOut(b: Balances, keys: set<(string, nat)>, k: (string, nat), epoch: nat)
    requires k in keys && keys <= b.Keys
    ensures Sum(b, keys, epoch) == Sum(b, keys - {k}, epoch) + (if k.1 == epoch then b[k] else 0)
    decreases keys
  {
    var j :| j in keys && Sum(b, keys, epoch) == Sum(b, keys - {j}, epoch) + (if j.1 == epoch then b[j] else 0);
    if j != k {
      SumTakeOut(b, keys - {j}, k, epoch);
      SumTakeOut(b, keys - {k}, j, epoch);
      assert keys - {j} - {k} == keys - {k} - {j};
    }
  }

  lemma {:induction false} SumAgrees(b: Balances, c: Balances, keys: set<(string, nat)>, epoch: nat)
    requires keys <= b.Keys && keys <= c.Keys && forall k :: k in keys ==> b[k] == c[k]
    ensures Sum(b, keys, epoch) == Sum(c, keys, epoch)
    decreases keys
  {
    if keys != {} {
      var k :| k in keys;
      SumTakeOut(b, keys, k, epoch);
      SumTakeOut(c, keys, k, epoch);
      SumAgrees(b, c, keys - {k}, epoch);
    }
  }

  lemma SupplyUpdate(b: Balances, owner: string, e: nat, v: nat, epoch: nat)
    ensures Supply(b[(owner, e) := v], epoch) == Supply(b, epoch) + (if e == epoch then v - Get(b, owner, e) else 0)
  {
    var k := (owner, e);
    var c := b[k := v];
    SumTakeOut(c, c.Keys, k, epoch);
    assert c.Keys - {k} == b.Keys - {k};
    SumAgrees(b, c, b.Keys - {k}, epoch);
    if k in b {
      SumTakeOut(b, b.Keys, k, epoch);
    } else {
      assert b.Keys - {k} == b.Keys;
    }
  }

  /** Conservation: at every point of a valid log the holders' balances of an epoch sum to minted minus burned. */
  lemma {:induction false} SupplyIsMintedMinusBurned(xs: seq<Move>, epoch: nat)
    requires Execute(xs).Some?
    ensures Supply(Execute(xs).value, epoch) == Minted(xs, epoch) - Burned(xs, epoch)
  {
    if xs != [] {
      var n := |xs| - 1;
      SupplyIsMintedMinusBurned(xs[..n], epoch);
      var b, x := Execute(xs[..n]).value, xs[n];
      var b1 := if x.from == ZERO then b else b[(x.from, x.epoch) := Get(b, x.from, x.epoch) - x.amount];
      if x.from != ZERO { SupplyUpdate(b, x.from, x.epoch, Get(b, x.from, x.epoch) - x.amount, epoch); }
      if x.to != ZERO { SupplyUpdate(b1, x.to, x.epoch, Get(b1, x.to, x.epoch) + x.amount, epoch); }
    }
  }
}
