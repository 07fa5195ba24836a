/** The nonces of the relayer wallet's sends, in send order (src/utils/lock.ts, src/services/policies.ts): what sending,
    mining and abandoning keep, independent of who sends. */
module Nonces {
  datatype Outcome = Outstanding | Confirmed | Abandoned

  /** A transaction sent by the relayer wallet with the pending nonce it read; once it is mined, `mined` remembers how many
      sends there had been by then. */
  datatype Send = Send(nonce: nat, outcome: Outcome, mined: nat)

  function CloseSend(ss: seq<Send>, o: Outcome): seq<Send>
    requires ss != []
  {
    ss[|ss| - 1 := ss[|ss| - 1].(outcome := o, mined := if o.Confirmed? then |ss| else 0)]
  }

  predicate LastOutstanding(ss: seq<Send>) {
    ss != [] && ss[|ss| - 1].outcome.Outstanding?
  }

  /** A transaction was mined when there had been n sends. */
  ghost predicate MinedAt(ss: seq<Send>, n: nat) {
    exists m :: 0 <= m < |ss| && ss[m].outcome.Confirmed? && ss[m].mined == n
  }

  /** Each of the first n sends was mined before the next was broadcast. */
  predicate MinedInTurn(ss: seq<Send>, n: nat) {
    n <= |ss| && forall m :: 0 <= m < n ==> ss[m].outcome.Confirmed? && ss[m].mined == m + 1
  }

  /** What a mining with n sends adds to the nonce the next send reads. */
  ghost function Advance(ss: seq<Send>, n: nat): nat {
    if MinedAt(ss, n) then 1 else 0
  }

  /** Each send reads its predecessor's nonce, or the next one if a transaction was mined in between. */
  ghost predicate Chain(ss: seq<Send>, pending: nat) {
    && (forall j: nat {:trigger Reads(ss, j)} :: 0 < j < |ss| ==> Reads(ss, j))
    && (ss != [] ==> pending == ss[|ss| - 1].nonce + Advance(ss, |ss|))
  }

  ghost predicate Reads(ss: seq<Send>, j: nat)
    requires 0 < j < |ss|
  {
    ss[j].nonce == ss[j - 1].nonce + Advance(ss, j)
  }

  ghost predicate MiningFits(ss: seq<Send>, m: int)
    requires 0 <= m < |ss|
  {
    m < ss[m].mined <= |ss| && ss[m].nonce == ss[ss[m].mined - 1].nonce
  }

  /** A mined send had the nonce of the latest send by then; no two are mined at the same number of sends; only the last
      send can be outstanding. */
  ghost predicate MiningOk(ss: seq<Send>) {
    && (forall m :: 0 <= m < |ss| && ss[m].outcome.Confirmed? ==> m < ss[m].mined <= |ss|)
    && (forall m {:trigger MiningFits(ss, m)} :: 0 <= m < |ss| && ss[m].outcome.Confirmed? ==> MiningFits(ss, m))
    && (forall m, n :: 0 <= m < n < |ss| && ss[m].outcome.Confirmed? && ss[n].outcome.Confirmed? ==> ss[m].mined != ss[n].mined)
    && (forall m :: 0 <= m < |ss| - 1 ==> !ss[m].outcome.Outstanding?)
  }

  /** Only mined sends matter to MinedAt. */
  lemma SameMined(ss: seq<Send>, ss': seq<Send>)
    requires |ss| <= |ss'|
    requires forall m :: 0 <= m < |ss| ==> ss'[m] == ss[m] || (!ss[m].outcome.Confirmed? && !ss'[m].outcome.Confirmed?)
    requires forall m :: |ss| <= m < |ss'| ==> !ss'[m].outcome.Confirmed?
    ensures forall n :: MinedAt(ss', n) <==> MinedAt(ss, n)
  {
    forall n | MinedAt(ss, n) ensures MinedAt(ss', n) {
      var m :| 0 <= m < |ss| && ss[m].outcome.Confirmed? && ss[m].mined == n;
      assert ss'[m] == ss[m];
    }
  }

  /** ... and their fit depends on nonces alone. */
  lemma SameFits(ss: seq<Send>, ss': seq<Send>)
    requires |ss| <= |ss'| && MiningOk(ss) && forall m :: 0 <= m < |ss| ==> ss'[m].nonce == ss[m].nonce
    requires forall m :: 0 <= m < |ss'| && ss'[m].outcome.Confirmed? ==> m < |ss| && ss'[m] == ss[m]
    ensures forall m :: 0 <= m < |ss'| && ss'[m].outcome.Confirmed? ==> MiningFits(ss', m)
  {
    forall m | 0 <= m < |ss'| && ss'[m].outcome.Confirmed? ensures MiningFits(ss', m) {
      assert MiningFits(ss, m);
    }
  }

  lemma ChainAppend(ss: seq<Send>, pending: nat)
    requires Chain(ss, pending) && MiningOk(ss) && !LastOutstanding(ss)
    ensures Chain(ss + [Send(pending, Outstanding, 0)], pending) && MiningOk(ss + [Send(pending, Outstanding, 0)])
  {
    var ss' := ss + [Send(pending, Outstanding, 0)];
    SameMined(ss, ss');
    SameFits(ss, ss');
    assert !MinedAt(ss, |ss| + 1);
    forall j: nat | 0 < j < |ss'| ensures Reads(ss', j) {
      if j < |ss| { assert Reads(ss, j); }
    }
  }

  /** Recording that send i, which read the pending nonce, was mined now. */
  lemma ChainMine(ss: seq<Send>, pending: nat, i: nat)
    requires Chain(ss, pending) && MiningOk(ss) && i < |ss| && !ss[i].outcome.Confirmed? && ss[i].nonce == pending
    ensures var ss' := ss[i := ss[i].(outcome := Confirmed, mined := |ss|)];
            Chain(ss', pending + 1) && MiningOk(ss')
  {
    var ss' := ss[i := ss[i].(outcome := Confirmed, mined := |ss|)];
    NoncesRise(ss, pending, i, |ss| - 1);
    assert !MinedAt(ss, |ss|) && ss[|ss| - 1].nonce == pending;
    MineOk(ss, ss', i);
    MoreMined(ss, ss', i);
    forall j: nat | 0 < j < |ss'| ensures Reads(ss', j) { assert Reads(ss, j); }
  }

  lemma MineOk(ss: seq<Send>, ss': seq<Send>, i: nat)
    requires MiningOk(ss) && i < |ss| && !ss[i].outcome.Confirmed? && !MinedAt(ss, |ss|) && ss[i].nonce == ss[|ss| - 1].nonce
    requires ss' == ss[i := ss[i].(outcome := Confirmed, mined := |ss|)]
    ensures MiningOk(ss')
  {
    forall m | 0 <= m < |ss'| && ss'[m].outcome.Confirmed?
      ensures MiningFits(ss', m)
    {
      if m != i { assert ss'[m] == ss[m] && MiningFits(ss, m); }
    }
    forall m | 0 <= m < |ss'| && ss'[m].outcome.Confirmed? && m != i ensures ss'[m].mined != |ss| {
      assert ss'[m] == ss[m];
    }
  }

  lemma MoreMined(ss: seq<Send>, ss': seq<Send>, i: nat)
    requires i < |ss| && !ss[i].outcome.Confirmed? && ss' == ss[i := ss[i].(outcome := Confirmed, mined := |ss|)]
    ensures forall n :: MinedAt(ss', n) <==> MinedAt(ss, n) || n == |ss|
  {
    assert ss'[i].outcome.Confirmed? && ss'[i].mined == |ss|;
    forall n | MinedAt(ss, n) ensures MinedAt(ss', n) {
      var m :| 0 <= m < |ss| && ss[m].outcome.Confirmed? && ss[m].mined == n;
      assert ss'[m] == ss[m];
    }
  }

  lemma ChainAbandon(ss: seq<Send>, pending: nat)
    requires Chain(ss, pending) && MiningOk(ss) && LastOutstanding(ss)
    ensures Chain(CloseSend(ss, Abandoned), pending) && MiningOk(CloseSend(ss, Abandoned))
  {
    var ss' := CloseSend(ss, Abandoned);
    SameMined(ss, ss');
    SameFits(ss, ss');
    forall j: nat | 0 < j < |ss'| ensures Reads(ss', j) { assert Reads(ss, j); }
  }

  /** Nonces never fall, and stay the same exactly while nothing is mined. */
  lemma {:induction false} NoncesRise(ss: seq<Send>, pending: nat, i: nat, j: nat)
    requires Chain(ss, pending) && i <= j < |ss|
    ensures ss[i].nonce <= ss[j].nonce <= pending
    ensures ss[i].nonce == ss[j].nonce <==> forall n: nat :: i < n <= j ==> !MinedAt(ss, n)
    decreases |ss| - i
  {
    if i < j {
      NoncesRise(ss, pending, i + 1, j);
      assert Reads(ss, i + 1);
    } else if j < |ss| - 1 {
      NoncesRise(ss, pending, j + 1, |ss| - 1);
      assert Reads(ss, j + 1);
    }
  }

  lemma MinedApart(ss: seq<Send>, pending: nat, i: nat, j: nat)
    requires Chain(ss, pending) && MiningOk(ss) && i < |ss| && j < |ss| && i != j
    requires ss[i].outcome.Confirmed? && ss[j].outcome.Confirmed?
    ensures ss[i].nonce != ss[j].nonce
  {
    var m, n := ss[i].mined, ss[j].mined;
    assert m != n && MinedAt(ss, m) && MinedAt(ss, n) && MiningFits(ss, i) && MiningFits(ss, j);
    if m < n { NoncesRise(ss, pending, m - 1, n - 1); } else { NoncesRise(ss, pending, n - 1, m - 1); }
  }

  lemma MinedIsPast(ss: seq<Send>, pending: nat, m: nat)
    requires Chain(ss, pending) && MiningOk(ss) && m < |ss| && ss[m].outcome.Confirmed?
    ensures ss[m].nonce < pending
  {
    var n := ss[m].mined;
    assert MinedAt(ss, n) && MiningFits(ss, m);
    NoncesRise(ss, pending, n - 1, |ss| - 1);
    if n < |ss| { NoncesRise(ss, pending, n, |ss| - 1); assert Reads(ss, n); }
  }

  /** Every nonce below the pending one, from the first on, was mined by a send. */
  lemma MinedWith(ss: seq<Send>, pending: nat, v: nat) returns (m: nat)
    requires Chain(ss, pending) && MiningOk(ss) && ss != [] && ss[0].nonce <= v < pending
    ensures m < |ss| && ss[m].outcome.Confirmed? && ss[m].nonce == v
  {
    var n := MiningOf(ss, |ss|, pending, v);
    m :| 0 <= m < |ss| && ss[m].outcome.Confirmed? && ss[m].mined == n;
    assert MiningFits(ss, m);
  }

  lemma {:induction false} MiningOf(ss: seq<Send>, n: nat, next: nat, v: nat) returns (k: nat)
    requires 0 < n <= |ss| && ss[0].nonce <= v < next && next == ss[n - 1].nonce + Advance(ss, n)
    requires forall j: nat {:trigger Reads(ss, j)} :: 0 < j < |ss| ==> Reads(ss, j)
    ensures 0 < k <= |ss| && MinedAt(ss, k) && ss[k - 1].nonce == v
    decreases n
  {
    if ss[n - 1].nonce <= v {
      k := n;
    } else {
      assert Reads(ss, n - 1);
      k := MiningOf(ss, n - 1, ss[n - 1].nonce, v);
    }
  }
}
