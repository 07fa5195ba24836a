/** How soon the delivery queue of src/services/webhooks.ts is empty, once nothing new is fanned out and nothing fails but
    the receivers: 50 rows a tick, three attempts a row. */
module Drain {
  import opened Webhooks
  import opened Lifecycle
  import opened Queue

  // ---- when a pending row falls due ----

  /** A row not attempted yet is due. */
  ghost predicate NewDue(s: Hooks) {
    forall id :: 0 <= id < |s.dels| && s.dels[id].status.Pending? && s.dels[id].attempts == 0 ==> s.dels[id].next <= s.clock
  }

  lemma TickKeepsNewDue(s: Hooks, a: Act)
    requires NewDue(s) && Enabled(s, a) && a.StartTick?
    ensures NewDue(Apply(s, a))
  {
    BatchPending(s, a.batch, a.now);
    WithoutMembers(a.batch, a.bad);
    StartFrames(s, Without(a.batch, a.bad));
  }

  lemma StepKeepsNewDue(s: Hooks, a: Act)
    requires NewDue(s)
    ensures NewDue(Apply(s, a))
  {
    if Enabled(s, a) {
      if a.StartTick? {
        TickKeepsNewDue(s, a);
      } else if !a.Settle? {
        OtherStepsFresh(s, a);
        var s' := Apply(s, a);
        forall id | 0 <= id < |s'.dels| && s'.dels[id].status.Pending? && s'.dels[id].attempts == 0 ensures s'.dels[id].next <= s'.clock {
          if id < |s.dels| { assert s'.dels[id] == s.dels[id]; }
        }
      }
    }
  }

  lemma {:induction false} ExecKeepsNewDue(s: Hooks, acts: seq<Act>)
    requires NewDue(s)
    ensures NewDue(Exec(s, acts))
  {
    if acts != [] {
      ExecKeepsNewDue(s, acts[..|acts| - 1]);
      StepKeepsNewDue(Exec(s, acts[..|acts| - 1]), acts[|acts| - 1]);
    }
  }

  /** The longest back-off is one minute. */
  lemma DueWithinAMinute(s: Hooks, id: nat)
    requires RowsOk(s) && NewDue(s) && id < |s.dels| && s.dels[id].status.Pending?
    ensures s.dels[id].next <= s.clock + 60_000
  {
    assert RowOk(s, id);
    if s.dels[id].attempts == 1 { assert Pow2(0) == 1; }
    if s.dels[id].attempts == 2 { assert Pow2(1) == 2 * Pow2(0); }
  }

  // ---- rounds ----

  /** A tick and what happens until the next: its requests end, and events or subscriptions may come and go. */
  datatype Round = Round(now: nat, batch: seq<nat>, rest: seq<Act>)

  predicate Harmless(a: Act) {
    a.Settle? || a.Insert? || a.Subscribe? || a.Unsubscribe?
  }

  ghost function RunRound(s: Hooks, r: Round): Hooks {
    Exec(Apply(s, StartTick(r.now, r.batch, {})), r.rest)
  }

  /** The tick starts past every back-off, finds no request in flight, and leaves none. */
  ghost predicate ValidRound(s: Hooks, r: Round) {
    && s.flights == [] && Enabled(s, StartTick(r.now, r.batch, {})) && r.now >= s.clock + 60_000
    && (forall a :: a in r.rest ==> Harmless(a))
    && RunRound(s, r).flights == []
  }

  ghost function RunRounds(s: Hooks, rs: seq<Round>): Hooks
    decreases |rs|
  {
    if rs == [] then s else RunRounds(RunRound(s, rs[0]), rs[1..])
  }

  ghost predicate ValidRounds(s: Hooks, rs: seq<Round>)
    decreases |rs|
  {
    rs == [] || (ValidRound(s, rs[0]) && ValidRounds(RunRound(s, rs[0]), rs[1..]))
  }

  // ---- one round ----

  /** Where row id stands in the middle of a round that began in s. */
  ghost predicate Tracked(s: Hooks, t: Hooks, batch: seq<nat>, id: nat)
    requires id < |s.dels| == |t.dels|
  {
    if InFlight(t, id) then id in batch && t.dels[id] == s.dels[id]
    else if id in batch then Left(t.dels[id]) < Left(s.dels[id]) && s.dels[id].status.Pending?
    else t.dels[id] == s.dels[id]
  }

  ghost predicate Mid(s: Hooks, t: Hooks, batch: seq<nat>) {
    && |t.dels| == |s.dels| && FlightsOk(t) && AttemptsOk(t)
    && forall id :: 0 <= id < |s.dels| ==> Tracked(s, t, batch, id)
  }

  lemma {:induction false} WithoutNone(batch: seq<nat>)
    ensures Without(batch, {}) == batch
  {
    if batch != [] {
      WithoutNone(batch[..|batch| - 1]);
      assert batch == batch[..|batch| - 1] + [batch[|batch| - 1]];
    }
  }

  lemma PendingHasLeft(s: Hooks, id: nat)
    requires RowsOk(s) && id < |s.dels|
    ensures Left(s.dels[id]) >= 1 <==> s.dels[id].status.Pending?
    ensures Left(s.dels[id]) <= 3
  {
    assert RowOk(s, id);
  }

  lemma RoundStarts(s: Hooks, now: nat, batch: seq<nat>)
    requires AttemptsOk(s) && s.flights == [] && Enabled(s, StartTick(now, batch, {}))
    ensures Mid(s, Apply(s, StartTick(now, batch, {})), batch)
  {
    var a := StartTick(now, batch, {});
    BatchPending(s, batch, now);
    WithoutNone(batch);
    StepKeepsAttempts(s, a);
    StepKeepsFlights(s, a);
    StartTracks(s, Apply(s, a), batch);
  }

  lemma StartTracks(s: Hooks, t: Hooks, batch: seq<nat>)
    requires RowsOk(s) && s.flights == [] && Distinct(batch)
    requires forall a :: 0 <= a < |batch| ==> batch[a] < |s.dels| && s.dels[batch[a]].status.Pending?
    requires t.dels == StartAll(s, batch).dels && t.flights == StartAll(s, batch).flights
    ensures forall id :: 0 <= id < |s.dels| ==> Tracked(s, t, batch, id)
  {
    StartFrames(s, batch);
    StartFlights(s, batch);
    forall id | 0 <= id < |s.dels| ensures Tracked(s, t, batch, id) {
      if InFlight(t, id) {
        var f :| f in t.flights && f.id == id;
        var k :| 0 <= k < |t.flights| && t.flights[k] == f;
      } else if id in batch {
        StartedNotAhead(s, t, batch, id);
        PendingHasLeft(s, id);
      }
    }
  }

  lemma SettleTracks(s: Hooks, t: Hooks, batch: seq<nat>, a: Act)
    requires Mid(s, t, batch) && a.Settle? && Enabled(t, a)
    ensures Mid(s, Apply(t, a), batch)
  {
    var t', f := Apply(t, a), t.flights[a.k];
    StepKeepsAttempts(t, a);
    StepKeepsFlights(t, a);
    OthersStay(t.flights, a.k);
    assert FlightOk(t, f) && f in t.flights && InFlight(t, f.id);
    assert Tracked(s, t, batch, f.id);
    PendingHasLeft(t, f.id);
    NotTwice(t.flights, a.k);
    forall id | 0 <= id < |s.dels| ensures Tracked(s, t', batch, id) {
      assert Tracked(s, t, batch, id);
      if id != f.id { SameInFlight(t, t', a.k, id); }
    }
  }

  /** The request that ended was the only one of its row. */
  lemma NotTwice(fs: seq<Flight>, k: nat)
    requires Apart(fs, 0) && k < |fs|
    ensures forall g :: g in fs[..k] + fs[k + 1..] ==> g.id != fs[k].id
  {
    var gs := fs[..k] + fs[k + 1..];
    forall g | g in gs ensures g.id != fs[k].id {
      var i :| 0 <= i < |gs| && gs[i] == g;
      assert gs[i] == fs[if i < k then i else i + 1];
    }
  }

  lemma SameInFlight(t: Hooks, t': Hooks, k: nat, id: nat)
    requires k < |t.flights| && t'.flights == t.flights[..k] + t.flights[k + 1..] && id != t.flights[k].id
    ensures InFlight(t', id) <==> InFlight(t, id)
  {
    OthersStay(t.flights, k);
    if InFlight(t, id) {
      var f :| f in t.flights && f.id == id;
      assert f in t'.flights;
    }
  }

  lemma HarmlessTracks(s: Hooks, t: Hooks, batch: seq<nat>, a: Act)
    requires Mid(s, t, batch) && Harmless(a)
    ensures Mid(s, Apply(t, a), batch)
  {
    if Enabled(t, a) {
      if a.Settle? {
        SettleTracks(s, t, batch, a);
      } else {
        StepKeepsAttempts(t, a);
        StepKeepsFlights(t, a);
        var t' := Apply(t, a);
        assert t'.dels == t.dels && t'.flights == t.flights;
        forall id | 0 <= id < |s.dels| ensures Tracked(s, t', batch, id) { assert Tracked(s, t, batch, id); }
      }
    }
  }

  lemma {:induction false} RestTracks(s: Hooks, t: Hooks, batch: seq<nat>, rest: seq<Act>)
    requires Mid(s, t, batch) && forall a :: a in rest ==> Harmless(a)
    ensures Mid(s, Exec(t, rest), batch)
  {
    if rest != [] {
      var init, a := rest[..|rest| - 1], rest[|rest| - 1];
      assert a in rest && forall x :: x in init ==> x in rest;
      RestTracks(s, t, batch, init);
      HarmlessTracks(s, Exec(t, init), batch, a);
    }
  }

  /** After a round every row of its batch owes at least one attempt less, and no other row changed. */
  ghost predicate Lowered(s: Hooks, s': Hooks, batch: seq<nat>) {
    && |s'.dels| == |s.dels|
    && (forall id :: 0 <= id < |s.dels| && id in batch ==> Left(s'.dels[id]) < Left(s.dels[id]) && s.dels[id].status.Pending?)
    && (forall id :: 0 <= id < |s.dels| && id !in batch ==> s'.dels[id] == s.dels[id])
  }

  /** A state between rounds. */
  ghost predicate Ready(s: Hooks) {
    AttemptsOk(s) && NewDue(s) && s.flights == []
  }

  lemma RoundLowers(s: Hooks, r: Round)
    requires Ready(s) && ValidRound(s, r)
    ensures Ready(RunRound(s, r)) && Lowered(s, RunRound(s, r), r.batch)
  {
    var t := Apply(s, StartTick(r.now, r.batch, {}));
    RoundStarts(s, r.now, r.batch);
    RestTracks(s, t, r.batch, r.rest);
    StepKeepsNewDue(s, StartTick(r.now, r.batch, {}));
    ExecKeepsNewDue(t, r.rest);
    TrackedToEnd(s, RunRound(s, r), r.batch);
  }

  lemma TrackedToEnd(s: Hooks, s': Hooks, batch: seq<nat>)
    requires Mid(s, s', batch) && s'.flights == []
    ensures Lowered(s, s', batch)
  {
    forall id | 0 <= id < |s.dels|
      ensures id in batch ==> Left(s'.dels[id]) < Left(s.dels[id]) && s.dels[id].status.Pending?
      ensures id !in batch ==> s'.dels[id] == s.dels[id]
    {
      assert Tracked(s, s', batch, id) && !InFlight(s', id);
    }
  }

  // ---- counting ----

  function Pending(dels: seq<Delivery>): set<nat> {
    set id | 0 <= id < |dels| && dels[id].status.Pending?
  }

  /** The members of a set below n. */
  function Below(xs: set<nat>, n: nat): set<nat> {
    set x | x in xs && x < n
  }

  lemma {:induction false} WorkDrops(dels: seq<Delivery>, dels': seq<Delivery>, picked: set<nat>, n: nat)
    requires |dels| == |dels'| && n <= |dels|
    requires forall id :: 0 <= id < |dels| ==> Left(dels'[id]) + (if id in picked then 1 else 0) <= Left(dels[id])
    ensures Work(dels'[..n]) + |Below(picked, n)| <= Work(dels[..n])
  {
    if n == 0 {
      assert Below(picked, 0) == {};
    } else {
      WorkDrops(dels, dels', picked, n - 1);
      WorkLast(dels, n);
      WorkLast(dels', n);
      BelowNext(picked, n - 1);
    }
  }

  lemma WorkLast(dels: seq<Delivery>, n: nat)
    requires 0 < n <= |dels|
    ensures Work(dels[..n]) == Work(dels[..n - 1]) + Left(dels[n - 1])
  {
    assert dels[..n][..n - 1] == dels[..n - 1];
  }

  lemma BelowNext(xs: set<nat>, n: nat)
    ensures |Below(xs, n + 1)| == |Below(xs, n)| + if n in xs then 1 else 0
  {
    assert Below(xs, n + 1) == Below(xs, n) + if n in xs then {n} else {};
  }

  lemma LoweredWork(s: Hooks, s': Hooks, batch: seq<nat>)
    requires Lowered(s, s', batch) && Distinct(batch) && forall x :: x in batch ==> x < |s.dels|
    ensures Work(s'.dels) + |batch| <= Work(s.dels)
  {
    WorkDrops(s.dels, s'.dels, ToSet(batch), |s.dels|);
    SetOfDistinct(batch);
    assert Below(ToSet(batch), |s.dels|) == ToSet(batch);
    assert s.dels[..|s.dels|] == s.dels && s'.dels[..|s'.dels|] == s'.dels;
  }

  /** A round lists 50 rows, or every pending row. */
  lemma BatchIsFullOrAll(s: Hooks, r: Round)
    requires Ready(s) && ValidRound(s, r)
    ensures Distinct(r.batch) && forall x :: x in r.batch ==> x in Pending(s.dels)
    ensures |Pending(s.dels)| >= 50 ==> |r.batch| == 50
    ensures |Pending(s.dels)| < 50 ==> forall id :: id in Pending(s.dels) ==> id in r.batch
  {
    BatchPending(s, r.batch, r.now);
    SetOfDistinct(r.batch);
    forall id | id in Pending(s.dels) && id !in r.batch ensures |r.batch| == 50 {
      DueWithinAMinute(s, id);
      assert IsDue(s.dels, id, r.now);
    }
    if |r.batch| == 50 {
      SubsetCard(ToSet(r.batch), Pending(s.dels));
    } else {
      SubsetCard(Pending(s.dels), ToSet(r.batch));
    }
  }

  lemma FewerPending(s: Hooks, s': Hooks, batch: seq<nat>)
    requires Lowered(s, s', batch)
    ensures Pending(s'.dels) <= Pending(s.dels) && |Pending(s'.dels)| <= |Pending(s.dels)|
  {
    SubsetCard(Pending(s'.dels), Pending(s.dels));
  }

  /** No row owes more than m attempts. */
  predicate AtMostLeft(dels: seq<Delivery>, m: nat) {
    forall id :: 0 <= id < |dels| ==> Left(dels[id]) <= m
  }

  lemma SmallRound(s: Hooks, r: Round, m: nat)
    requires Ready(s) && ValidRound(s, r) && |Pending(s.dels)| < 50 && AtMostLeft(s.dels, m)
    ensures AtMostLeft(RunRound(s, r).dels, if m > 0 then m - 1 else 0)
  {
    var s' := RunRound(s, r);
    RoundLowers(s, r);
    BatchIsFullOrAll(s, r);
    forall id | 0 <= id < |s'.dels| ensures Left(s'.dels[id]) <= if m > 0 then m - 1 else 0 {
      PendingHasLeft(s, id);
      if s.dels[id].status.Pending? { assert id in Pending(s.dels); }
    }
  }

  // ---- how many ticks ----

  /** Fewer than 50 pending rows, none owing more than m attempts, are done after m ticks. */
  lemma {:induction false} FewRowsDrain(s: Hooks, rs: seq<Round>, m: nat)
    requires Ready(s) && ValidRounds(s, rs) && |Pending(s.dels)| < 50 && AtMostLeft(s.dels, m) && m <= |rs|
    ensures Ready(RunRounds(s, rs)) && AtMostLeft(RunRounds(s, rs).dels, 0)
    decreases |rs|
  {
    if rs != [] {
      var s' := RunRound(s, rs[0]);
      RoundLowers(s, rs[0]);
      SmallRound(s, rs[0], m);
      FewerPending(s, s', rs[0].batch);
      FewRowsDrain(s', rs[1..], if m > 0 then m - 1 else 0);
    }
  }

  lemma {:induction false} RowsDrain(s: Hooks, rs: seq<Round>)
    requires Ready(s) && ValidRounds(s, rs) && |rs| >= Work(s.dels) / 50 + 3
    ensures Ready(RunRounds(s, rs)) && AtMostLeft(RunRounds(s, rs).dels, 0)
    decreases |rs|
  {
    if |Pending(s.dels)| < 50 {
      forall id | 0 <= id < |s.dels| ensures Left(s.dels[id]) <= 3 { PendingHasLeft(s, id); }
      FewRowsDrain(s, rs, 3);
    } else {
      var s' := RunRound(s, rs[0]);
      RoundLowers(s, rs[0]);
      BatchIsFullOrAll(s, rs[0]);
      LoweredWork(s, s', rs[0].batch);
      assert Work(s'.dels) / 50 + 1 <= Work(s.dels) / 50;
      RowsDrain(s', rs[1..]);
    }
  }

  /** After any run whose requests have ended, ticks that do not overlap and start past the back-offs, with no new fan-out
      and no failure but the receivers', leave no row pending once there have been W / 50 + 3 of them, where W is the
      number of attempts owed at the start. */
  lemma QueueEmpties(acts: seq<Act>, rs: seq<Round>)
    requires Exec(Empty, acts).flights == [] && ValidRounds(Exec(Empty, acts), rs)
    requires |rs| >= Work(Exec(Empty, acts).dels) / 50 + 3
    ensures Pending(RunRounds(Exec(Empty, acts), rs).dels) == {}
  {
    var s := Exec(Empty, acts);
    AlwaysAttemptsOk(acts);
    ExecKeepsNewDue(Empty, acts);
    RowsDrain(s, rs);
    var s' := RunRounds(s, rs);
    forall id | id in Pending(s'.dels) ensures false {
      PendingHasLeft(s', id);
    }
  }
}
