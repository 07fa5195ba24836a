/** The life of a delivery in src/services/webhooks.ts: attempts and back-off on every run, and when a settled row
    can change. */
module Lifecycle {
  import opened Webhooks
  import C = ChainEvents

  // ---- attempts and back-off, over every run ----

  ghost predicate RowOk(s: Hooks, id: nat)
    requires id < |s.dels|
  {
    var d := s.dels[id];
    && d.attempts <= MAX_ATTEMPTS
    && (d.status.Pending? ==> d.attempts < MAX_ATTEMPTS)
    && (d.status.Pending? && d.attempts > 0 ==>
          id in s.failedAt && s.failedAt[id] <= s.clock
          && d.next == s.failedAt[id] + BACKOFF_BASE_MS * Pow2(d.attempts - 1))
  }

  ghost predicate RowsOk(s: Hooks) {
    forall id :: 0 <= id < |s.dels| ==> RowOk(s, id)
  }

  /** No request in flight is beyond the third attempt. */
  ghost predicate Capped(s: Hooks) {
    forall a :: 0 <= a < |s.flights| ==> s.flights[a].id < |s.dels| && 1 <= s.flights[a].attempt <= MAX_ATTEMPTS
  }

  ghost predicate AttemptsOk(s: Hooks) {
    RowsOk(s) && Capped(s)
  }

  /** A step may only add rows with no attempts, and drop requests. */
  ghost predicate FreshFrom(s: Hooks, s': Hooks) {
    && s.dels <= s'.dels && s'.failedAt == s.failedAt && s'.clock >= s.clock
    && forall id :: |s.dels| <= id < |s'.dels| ==> s'.dels[id].status.Pending? && s'.dels[id].attempts == 0
  }

  lemma {:induction false} FanoutFresh(s: Hooks, ids: seq<nat>, now: nat)
    requires forall k :: 0 <= k < |ids| ==> ids[k] < |s.events|
    ensures FreshFrom(s, FanoutAll(s, ids, now))
    ensures forall id :: |s.dels| <= id < |FanoutAll(s, ids, now).dels| ==> FanoutAll(s, ids, now).dels[id].next == now
  {
    if ids != [] {
      FanoutFresh(s, ids[..|ids| - 1], now);
    }
  }

  lemma FreshKeepsRows(s: Hooks, s': Hooks)
    requires RowsOk(s) && FreshFrom(s, s')
    ensures RowsOk(s')
  {
    forall id | 0 <= id < |s'.dels| ensures RowOk(s', id) {
      if id < |s.dels| { assert s'.dels[id] == s.dels[id] && RowOk(s, id); }
    }
  }

  /** Every step but the start of a tick and a recorded outcome only adds fresh rows. */
  lemma OtherStepsFresh(s: Hooks, a: Act)
    requires !a.StartTick? && !a.Settle?
    ensures FreshFrom(s, Apply(s, a))
    ensures a.Fanout? || a.FanoutStops? ==> forall id :: |s.dels| <= id < |Apply(s, a).dels| ==> Apply(s, a).dels[id].next == a.now
    ensures !a.Fanout? && !a.FanoutStops? ==> Apply(s, a).dels == s.dels
  {
    if Enabled(s, a) {
      var ids := PendingEvents(|s.events|, s.processed, 0, FANOUT_LIMIT);
      if a.Fanout? { FanoutFresh(s, ids, a.now); }
      if a.FanoutStops? { FanoutFresh(s, ids[..a.k], a.now); }
    }
  }

  /** ... and keeps a selection of the requests in flight: all of them, all but one, or none. */
  lemma OtherStepsFlights(s: Hooks, a: Act)
    requires !a.StartTick? && !a.Settle?
    ensures var fs := Apply(s, a).flights;
            || fs == s.flights || (fs == [] && (a.Restart? || (a.FanoutStops? && a.dies)))
            || (a.SettleFails? && a.k < |s.flights| && fs == s.flights[..a.k] + s.flights[a.k + 1..])
  {
  }

  /** What starting a batch does to the rows: those outside it stay, those inside may only fail. */
  lemma {:induction false} StartFrames(s: Hooks, batch: seq<nat>)
    requires forall a :: 0 <= a < |batch| ==> batch[a] < |s.dels|
    ensures var s' := StartAll(s, batch);
            && (forall id :: 0 <= id < |s.dels| && id !in batch ==> s'.dels[id] == s.dels[id])
            && (forall id :: 0 <= id < |s.dels| ==> s'.dels[id] == s.dels[id] || s'.dels[id] == s.dels[id].(status := Failed))
  {
    if batch != [] {
      var n := |batch| - 1;
      StartFrames(s, batch[..n]);
      assert batch == batch[..n] + [batch[n]];
    }
  }

  /** The requests a tick sends: one for each started row that does not fail at once. */
  lemma {:induction false} StartFlights(s: Hooks, batch: seq<nat>)
    requires Distinct(batch) && forall a :: 0 <= a < |batch| ==> batch[a] < |s.dels|
    ensures var fs := StartAll(s, batch).flights;
            && s.flights <= fs
            && forall a :: |s.flights| <= a < |fs| ==>
                 && fs[a].id in batch && fs[a].attempt == s.dels[fs[a].id].attempts + 1
                 && StartAll(s, batch).dels[fs[a].id] == s.dels[fs[a].id]
    ensures Apart(StartAll(s, batch).flights, |s.flights|)
  {
    if batch != [] {
      var init, id := batch[..|batch| - 1], batch[|batch| - 1];
      assert batch == init + [id];
      StartFlights(s, init);
      StartFrames(s, init);
      assert id !in init;
    }
  }

  /** The requests from index n on are for different rows. */
  ghost predicate Apart(fs: seq<Flight>, n: nat) {
    forall a, b :: n <= a < b < |fs| ==> fs[a].id != fs[b].id
  }

  lemma StartKeepsRows(s: Hooks, batch: seq<nat>)
    requires RowsOk(s) && forall a :: 0 <= a < |batch| ==> batch[a] < |s.dels|
    ensures RowsOk(StartAll(s, batch))
  {
    var s' := StartAll(s, batch);
    StartFrames(s, batch);
    forall id | 0 <= id < |s'.dels| ensures RowOk(s', id) { assert RowOk(s, id); }
  }

  lemma StartKeepsCap(s: Hooks, batch: seq<nat>)
    requires AttemptsOk(s) && Distinct(batch)
    requires forall a :: 0 <= a < |batch| ==> batch[a] < |s.dels| && s.dels[batch[a]].status.Pending?
    ensures Capped(StartAll(s, batch))
  {
    var s' := StartAll(s, batch);
    StartFlights(s, batch);
    forall a | 0 <= a < |s'.flights| ensures s'.flights[a].id < |s'.dels| && 1 <= s'.flights[a].attempt <= MAX_ATTEMPTS {
      if a >= |s.flights| { NextAttempt(s, s'.flights[a]); }
    }
  }

  lemma NextAttempt(s: Hooks, f: Flight)
    requires RowsOk(s) && f.id < |s.dels| && s.dels[f.id].status.Pending? && f.attempt == s.dels[f.id].attempts + 1
    ensures f.attempt <= MAX_ATTEMPTS
  {
    assert RowOk(s, f.id);
  }

  lemma SettleKeepsAttempts(s: Hooks, k: nat, outcome: Outcome, now: nat)
    requires AttemptsOk(s) && Enabled(s, Settle(k, outcome, now))
    ensures AttemptsOk(Apply(s, Settle(k, outcome, now)))
  {
    var s' := Apply(s, Settle(k, outcome, now));
    var f := s.flights[k];
    forall id | 0 <= id < |s'.dels| ensures RowOk(s', id) { assert RowOk(s, id); }
    forall a | 0 <= a < |s'.flights| ensures s'.flights[a].id < |s'.dels| && 1 <= s'.flights[a].attempt <= MAX_ATTEMPTS {
      assert s'.flights[a] == s.flights[if a < k then a else a + 1];
    }
  }

  lemma TickKeepsAttempts(s: Hooks, now: nat, batch: seq<nat>, bad: set<nat>)
    requires AttemptsOk(s) && Enabled(s, StartTick(now, batch, bad))
    ensures AttemptsOk(Apply(s, StartTick(now, batch, bad)))
  {
    BatchPending(s, batch, now);
    WithoutMembers(batch, bad);
    var started := Without(batch, bad);
    StartKeepsRows(s, started);
    StartKeepsCap(s, started);
    FreshKeepsRows(StartAll(s, started), Apply(s, StartTick(now, batch, bad)));
  }

  lemma StepKeepsAttempts(s: Hooks, a: Act)
    requires AttemptsOk(s)
    ensures AttemptsOk(Apply(s, a))
  {
    if Enabled(s, a) {
      if a.StartTick? {
        TickKeepsAttempts(s, a.now, a.batch, a.bad);
      } else if a.Settle? {
        SettleKeepsAttempts(s, a.k, a.outcome, a.now);
      } else {
        OtherStepsFresh(s, a);
        OtherStepsFlights(s, a);
        FreshKeepsRows(s, Apply(s, a));
      }
    }
  }

  lemma {:induction false} AlwaysAttemptsOk(acts: seq<Act>)
    ensures AttemptsOk(Exec(Empty, acts))
  {
    if acts != [] {
      AlwaysAttemptsOk(acts[..|acts| - 1]);
      StepKeepsAttempts(Exec(Empty, acts[..|acts| - 1]), acts[|acts| - 1]);
    }
  }

  /** Over every run, overlapping ticks and failures included: no row records more than 3 attempts, a pending
      row at most 2, and no request is sent as a fourth attempt. */
  lemma AttemptsBounded(acts: seq<Act>, id: nat, k: nat)
    ensures var s := Exec(Empty, acts);
            && (id < |s.dels| ==> s.dels[id].attempts <= 3 && (s.dels[id].status.Pending? ==> s.dels[id].attempts <= 2))
            && (k < |s.flights| ==> s.flights[k].attempt <= 3)
  {
    AlwaysAttemptsOk(acts);
    if id < |Exec(Empty, acts).dels| { assert RowOk(Exec(Empty, acts), id); }
  }

  /** Over every run: a pending row with m recorded failures is due exactly 30,000 * 2^(m-1) ms after the last
      one, so a tick that lists it starts no earlier. */
  lemma BackoffRespected(acts: seq<Act>, id: nat, now: nat, batch: seq<nat>, bad: set<nat>)
    requires id < |Exec(Empty, acts).dels| && Exec(Empty, acts).dels[id].attempts >= 1
    ensures var s := Exec(Empty, acts);
            && (s.dels[id].status.Pending? ==>
                  id in s.failedAt && s.dels[id].next == s.failedAt[id] + 30_000 * Pow2(s.dels[id].attempts - 1))
            && (Enabled(s, StartTick(now, batch, bad)) && id in batch ==>
                  id in s.failedAt && now >= s.failedAt[id] + 30_000 * Pow2(s.dels[id].attempts - 1))
  {
    var s := Exec(Empty, acts);
    AlwaysAttemptsOk(acts);
    assert RowOk(s, id);
    if Enabled(s, StartTick(now, batch, bad)) { BatchPending(s, batch, now); }
  }

  // ---- settled rows ----

  /** A request in flight is the next attempt of a pending row. */
  ghost predicate FlightOk(s: Hooks, f: Flight) {
    f.id < |s.dels| && s.dels[f.id].status.Pending? && f.attempt == s.dels[f.id].attempts + 1
  }

  /** ... and the only one of that row. */
  ghost predicate FlightsOk(s: Hooks) {
    (forall a :: 0 <= a < |s.flights| ==> FlightOk(s, s.flights[a])) && Apart(s.flights, 0)
  }

  ghost predicate InFlight(s: Hooks, id: nat) {
    exists f :: f in s.flights && f.id == id
  }

  /** The guard: a tick starts a row whose request is still in flight. */
  ghost predicate Collides(s: Hooks, a: Act) {
    Enabled(s, a) && a.StartTick? && exists x :: x in a.batch && x !in a.bad && InFlight(s, x)
  }

  ghost predicate CollisionFree(s: Hooks, acts: seq<Act>) {
    acts == [] || (CollisionFree(s, acts[..|acts| - 1]) && !Collides(Exec(s, acts[..|acts| - 1]), acts[|acts| - 1]))
  }

  lemma StartKeepsFlights(s: Hooks, batch: seq<nat>)
    requires FlightsOk(s) && Distinct(batch)
    requires forall a :: 0 <= a < |batch| ==> batch[a] < |s.dels| && s.dels[batch[a]].status.Pending? && !InFlight(s, batch[a])
    ensures FlightsOk(StartAll(s, batch))
  {
    var s' := StartAll(s, batch);
    StartFlights(s, batch);
    StartFrames(s, batch);
    forall a | 0 <= a < |s.flights| ensures s.flights[a].id !in batch && FlightOk(s', s.flights[a]) {
      assert s.flights[a] in s.flights && FlightOk(s, s.flights[a]);
    }
    forall a | 0 <= a < |s'.flights| ensures FlightOk(s', s'.flights[a]) {
      assert a < |s.flights| ==> s'.flights[a] == s.flights[a];
    }
    MoreApart(s.flights, s'.flights, batch);
  }

  lemma MoreApart(fs: seq<Flight>, gs: seq<Flight>, batch: seq<nat>)
    requires fs <= gs && Apart(fs, 0) && Apart(gs, |fs|)
    requires forall a :: 0 <= a < |fs| ==> fs[a].id !in batch
    requires forall a :: |fs| <= a < |gs| ==> gs[a].id in batch
    ensures Apart(gs, 0)
  {
  }

  lemma SettleKeepsFlights(s: Hooks, k: nat, outcome: Outcome, now: nat)
    requires FlightsOk(s) && Enabled(s, Settle(k, outcome, now))
    ensures FlightsOk(Apply(s, Settle(k, outcome, now)))
  {
    var s' := Apply(s, Settle(k, outcome, now));
    forall a | 0 <= a < |s'.flights| ensures FlightOk(s', s'.flights[a]) {
      var b := if a < k then a else a + 1;
      assert s'.flights[a] == s.flights[b] && FlightOk(s, s.flights[b]);
    }
    DroppedApart(s.flights, k);
  }

  lemma DroppedApart(fs: seq<Flight>, k: nat)
    requires Apart(fs, 0) && k < |fs|
    ensures Apart(fs[..k] + fs[k + 1..], 0)
  {
    var gs := fs[..k] + fs[k + 1..];
    forall a, b | 0 <= a < b < |gs| ensures gs[a].id != gs[b].id {
      assert gs[a] == fs[if a < k then a else a + 1] && gs[b] == fs[if b < k then b else b + 1];
    }
  }

  lemma FreshKeepsFlights(s: Hooks, s': Hooks)
    requires FlightsOk(s) && FreshFrom(s, s') && Apart(s'.flights, 0) && forall f :: f in s'.flights ==> f in s.flights
    ensures FlightsOk(s')
  {
    forall a | 0 <= a < |s'.flights| ensures FlightOk(s', s'.flights[a]) {
      assert s'.flights[a] in s.flights;
      var b :| 0 <= b < |s.flights| && s.flights[b] == s'.flights[a];
      assert FlightOk(s, s.flights[b]);
    }
  }

  lemma StepKeepsFlights(s: Hooks, a: Act)
    requires FlightsOk(s) && !Collides(s, a)
    ensures FlightsOk(Apply(s, a))
  {
    if Enabled(s, a) {
      if a.StartTick? {
        BatchPending(s, a.batch, a.now);
        WithoutMembers(a.batch, a.bad);
        StartKeepsFlights(s, Without(a.batch, a.bad));
        FreshKeepsFlights(StartAll(s, Without(a.batch, a.bad)), Apply(s, a));
      } else if a.Settle? {
        SettleKeepsFlights(s, a.k, a.outcome, a.now);
      } else {
        OtherStepsFresh(s, a);
        OtherStepsFlights(s, a);
        if a.SettleFails? && a.k < |s.flights| { DroppedApart(s.flights, a.k); }
        FreshKeepsFlights(s, Apply(s, a));
      }
    }
  }

  lemma {:induction false} FreeKeepsFlights(s: Hooks, acts: seq<Act>)
    requires FlightsOk(s) && CollisionFree(s, acts)
    ensures FlightsOk(Exec(s, acts))
  {
    if acts != [] {
      FreeKeepsFlights(s, acts[..|acts| - 1]);
      StepKeepsFlights(Exec(s, acts[..|acts| - 1]), acts[|acts| - 1]);
    }
  }

  /** The step leaves row id alone if it is settled. */
  ghost predicate Keeps(s: Hooks, a: Act, id: nat) {
    id < |s.dels| && !s.dels[id].status.Pending? ==> id < |Apply(s, a).dels| && Apply(s, a).dels[id] == s.dels[id]
  }

  /** Only the outcome of a request still in flight for it can change a settled row. */
  lemma StepKeepsSettled(s: Hooks, a: Act, id: nat)
    requires a.Settle? && a.k < |s.flights| ==> s.flights[a.k].id != id || FlightOk(s, s.flights[a.k])
    ensures Keeps(s, a, id)
  {
    if Enabled(s, a) && id < |s.dels| && !s.dels[id].status.Pending? {
      if a.StartTick? {
        BatchPending(s, a.batch, a.now);
        WithoutMembers(a.batch, a.bad);
        StartFrames(s, Without(a.batch, a.bad));
      } else if !a.Settle? {
        OtherStepsFresh(s, a);
      }
    }
  }

  /** Delivered and failed rows never change again, as long as no tick starts a row whose request is still in flight
      (ticks may overlap otherwise, and anything may fail or die). */
  lemma {:induction false} SettledIsForever(acts: seq<Act>, k: nat, id: nat)
    requires CollisionFree(Empty, acts) && k <= |acts|
    requires id < |Exec(Empty, acts[..k]).dels| && !Exec(Empty, acts[..k]).dels[id].status.Pending?
    ensures id < |Exec(Empty, acts).dels| && Exec(Empty, acts).dels[id] == Exec(Empty, acts[..k]).dels[id]
  {
    if k == |acts| {
      assert acts[..k] == acts;
    } else {
      var init := acts[..|acts| - 1];
      assert init[..k] == acts[..k];
      SettledIsForever(init, k, id);
      FreeKeepsFlights(Empty, init);
      StepKeepsSettled(Exec(Empty, init), acts[|acts| - 1], id);
      assert Keeps(Exec(Empty, init), acts[|acts| - 1], id);
    }
  }

  /** No future without a further such tick changes a settled row. */
  ghost predicate SettledSafe(s: Hooks) {
    forall acts, a, id :: CollisionFree(s, acts) ==> Keeps(Exec(s, acts), a, id)
  }

  lemma FlightsOkIsSafe(s: Hooks)
    requires FlightsOk(s)
    ensures SettledSafe(s)
  {
    forall acts, a, id | CollisionFree(s, acts) ensures Keeps(Exec(s, acts), a, id) {
      FreeKeepsFlights(s, acts);
      StepKeepsSettled(Exec(s, acts), a, id);
    }
  }

  /** Two requests of one pending row, answered 2xx and then 4xx, turn a delivered row into a failed one. */
  lemma TwoRequestsReopen(s: Hooks, k: nat, l: nat)
    requires k < l < |s.flights| && s.flights[k].id == s.flights[l].id < |s.dels| && s.flights[k].attempt >= 1 && s.flights[l].attempt >= 1
    ensures !SettledSafe(s)
  {
    var x, a, b := s.flights[k].id, Settle(k, Accepted, s.clock), Settle(l - 1, Refused, s.clock);
    ExecOne(s, a);
    var s1 := Apply(s, a);
    assert s1.flights[l - 1] == s.flights[l];
    assert CollisionFree(s, [a][..0]) && CollisionFree(s, [a]);
    assert !Keeps(Exec(s, [a]), b, x);
  }

  /** A row failed at once while its request is in flight is delivered by that request's 2xx. */
  lemma FailedInFlightReopens(s: Hooks, k: nat)
    requires k < |s.flights| && s.flights[k].id < |s.dels| && s.flights[k].attempt >= 1 && s.dels[s.flights[k].id].status.Failed?
    ensures !SettledSafe(s)
  {
    ExecOne(s, Settle(k, Accepted, s.clock));
    assert CollisionFree(s, []);
    assert !Keeps(Exec(s, []), Settle(k, Accepted, s.clock), s.flights[k].id);
  }

  /** Every tick that starts a row still in flight has a continuation that changes a settled row. */
  lemma CollisionReopens(s: Hooks, a: Act)
    requires FlightsOk(s) && Collides(s, a)
    ensures !SettledSafe(Apply(s, a))
  {
    var k := CollidingFlight(s, a);
    StartedTwice(s, Without(a.batch, a.bad), Apply(s, a), k);
  }

  lemma CollidingFlight(s: Hooks, a: Act) returns (k: nat)
    requires FlightsOk(s) && Collides(s, a)
    ensures k < |s.flights| && s.flights[k].attempt >= 1 && s.flights[k].id in Without(a.batch, a.bad)
    ensures Distinct(Without(a.batch, a.bad)) && forall i :: 0 <= i < |Without(a.batch, a.bad)| ==> Without(a.batch, a.bad)[i] < |s.dels|
  {
    var x :| x in a.batch && x !in a.bad && InFlight(s, x);
    var f :| f in s.flights && f.id == x;
    k :| 0 <= k < |s.flights| && s.flights[k] == f;
    assert FlightOk(s, s.flights[k]);
    BatchPending(s, a.batch, a.now);
    WithoutMembers(a.batch, a.bad);
  }

  lemma StartedTwice(s: Hooks, batch: seq<nat>, s': Hooks, k: nat)
    requires Distinct(batch) && forall a :: 0 <= a < |batch| ==> batch[a] < |s.dels|
    requires s'.dels == StartAll(s, batch).dels && s'.flights == StartAll(s, batch).flights
    requires k < |s.flights| && s.flights[k].id in batch && s.flights[k].attempt >= 1
    ensures !SettledSafe(s')
  {
    var x := s.flights[k].id;
    StartFlights(s, batch);
    StartedOrFailed(s, batch, x);
    if s'.dels[x].status.Failed? {
      FailedInFlightReopens(s', k);
    } else {
      var l :| |s.flights| <= l < |s'.flights| && s'.flights[l].id == x;
      TwoRequestsReopen(s', k, l);
    }
  }

  /** A started row has failed or has a new request in flight. */
  ghost predicate Started(s: Hooks, s': Hooks, x: nat) {
    x < |s'.dels| && (s'.dels[x].status.Failed? || exists l :: |s.flights| <= l < |s'.flights| && s'.flights[l].id == x)
  }

  lemma {:induction false} StartedOrFailed(s: Hooks, batch: seq<nat>, x: nat)
    requires x in batch && forall a :: 0 <= a < |batch| ==> batch[a] < |s.dels|
    ensures Started(s, StartAll(s, batch), x)
  {
    var init, id := batch[..|batch| - 1], batch[|batch| - 1];
    assert batch == init + [id];
    StartGrows(s, init);
    if x == id {
      OneStarted(s, StartAll(s, init), id);
    } else {
      StartedOrFailed(s, init, x);
      StaysStarted(s, StartAll(s, init), id, x);
    }
  }

  lemma {:induction false} StartGrows(s: Hooks, batch: seq<nat>)
    requires forall a :: 0 <= a < |batch| ==> batch[a] < |s.dels|
    ensures s.flights <= StartAll(s, batch).flights
  {
    if batch != [] { StartGrows(s, batch[..|batch| - 1]); }
  }

  lemma OneStarted(s: Hooks, s1: Hooks, id: nat)
    requires id < |s1.dels| && s.flights <= s1.flights
    ensures Started(s, StartOne(s1, id), id)
  {
    var s' := StartOne(s1, id);
    if s'.flights != s1.flights { assert s'.flights[|s1.flights|].id == id; }
  }

  lemma StaysStarted(s: Hooks, s1: Hooks, id: nat, x: nat)
    requires id < |s1.dels| && Started(s, s1, x)
    ensures Started(s, StartOne(s1, id), x)
  {
    var s' := StartOne(s1, id);
    if !s1.dels[x].status.Failed? {
      var l :| |s.flights| <= l < |s1.flights| && s1.flights[l].id == x;
      assert s'.flights[l] == s1.flights[l];
    }
  }

  /** Exactly when settled rows are safe: over every run, at every moment no collision-free future changes a
      settled row, iff no tick of the run started a row whose request was still in flight. */
  lemma SettledSafeIff(acts: seq<Act>)
    ensures CollisionFree(Empty, acts) <==> forall k :: 0 <= k <= |acts| ==> SettledSafe(Exec(Empty, acts[..k]))
  {
    if CollisionFree(Empty, acts) {
      forall k | 0 <= k <= |acts| ensures SettledSafe(Exec(Empty, acts[..k])) {
        FreePrefix(acts, k);
        FreeKeepsFlights(Empty, acts[..k]);
        FlightsOkIsSafe(Exec(Empty, acts[..k]));
      }
    } else {
      var k := FirstCollision(acts);
      FreeKeepsFlights(Empty, acts[..k]);
      CollisionReopens(Exec(Empty, acts[..k]), acts[k]);
      assert acts[..k + 1][..k] == acts[..k];
      assert !SettledSafe(Exec(Empty, acts[..k + 1]));
    }
  }

  lemma {:induction false} FreePrefix(acts: seq<Act>, k: nat)
    requires CollisionFree(Empty, acts) && k <= |acts|
    ensures CollisionFree(Empty, acts[..k])
  {
    if k == |acts| {
      assert acts[..k] == acts;
    } else {
      assert acts[..|acts| - 1][..k] == acts[..k];
      FreePrefix(acts[..|acts| - 1], k);
    }
  }

  lemma {:induction false} FirstCollision(acts: seq<Act>) returns (k: nat)
    requires !CollisionFree(Empty, acts)
    ensures k < |acts| && CollisionFree(Empty, acts[..k]) && Collides(Exec(Empty, acts[..k]), acts[k])
  {
    var n := |acts| - 1;
    if CollisionFree(Empty, acts[..n]) {
      k := n;
    } else {
      k := FirstCollision(acts[..n]);
      assert acts[..n][..k] == acts[..k];
    }
  }

  // ---- overlapping ticks ----

  const E: C.Event := C.Event(C.BondMinted, C.Row("k", 7, "0xab"))

  function OverlapRun(): seq<Act> {
    [Insert([E])] + [Subscribe(Sub(E.row.wallet, true, {}, true))] + [Fanout(0)]
    + [StartTick(0, [0], {})] + [StartTick(0, [0], {})]
  }

  /** `setInterval` does not wait for a slow tick: when two ticks overlap, a delivered row can become
      pending again. */
  lemma OverlapReopensDelivered()
    ensures var one := Exec(Empty, OverlapRun() + [Settle(0, Accepted, 1)]);
            var two := Exec(Empty, OverlapRun() + [Settle(0, Accepted, 1)] + [Settle(0, Trouble, 2)]);
            |one.dels| == |two.dels| == 1 && one.dels[0].status.Delivered? && two.dels[0].status.Pending?
  {
    OverlapScene();
    var a, b := Settle(0, Accepted, 1), Settle(0, Trouble, 2);
    ExecSnoc(OverlapRun(), a);
    ExecSnoc(OverlapRun() + [a], b);
    SettleTwice(Exec(Empty, OverlapRun()));
  }

  lemma SettleTwice(s: Hooks)
    requires s.dels == [Delivery(0, 0, 0, Pending, 0)] && s.flights == [Flight(0, 1), Flight(0, 1)] && s.clock == 0
    ensures var one := Apply(s, Settle(0, Accepted, 1));
            var two := Apply(one, Settle(0, Trouble, 2));
            |one.dels| == |two.dels| == 1 && one.dels[0].status.Delivered? && two.dels[0].status.Pending?
  {
    assert Apply(s, Settle(0, Accepted, 1)).flights == [Flight(0, 1)];
  }

  lemma OverlapScene()
    ensures var s := Exec(Empty, OverlapRun());
            s.dels == [Delivery(0, 0, 0, Pending, 0)] && s.flights == [Flight(0, 1), Flight(0, 1)] && s.clock == 0
  {
    var e, sub := E, Sub(E.row.wallet, true, {}, true);
    SubscribedScene(e, sub);
    var a1 := [Insert([e])];
    var a2 := a1 + [Subscribe(sub)];
    var a3 := a2 + [Fanout(0)];
    var a4 := a3 + [StartTick(0, [0], {})];
    assert a1 == [] + [Insert([e])];
    ExecSnoc([], Insert([e]));
    ExecSnoc(a1, Subscribe(sub));
    ExecSnoc(a2, Fanout(0));
    ExecSnoc(a3, StartTick(0, [0], {}));
    ExecSnoc(a4, StartTick(0, [0], {}));
    assert OverlapRun() == a4 + [StartTick(0, [0], {})];
    FanoutFirst(Exec(Empty, a2), sub);
    StartPicksZero(Exec(Empty, a3), Delivery(0, 0, 0, Pending, 0));
    StartPicksZero(Exec(Empty, a4), Delivery(0, 0, 0, Pending, 0));
  }

  lemma SubscribedScene(e: C.Event, sub: Sub)
    ensures Apply(Apply(Empty, Insert([e])), Subscribe(sub)) == Hooks([e], {}, [sub], [], [], 0, map[], map[])
  {
  }

  lemma FanoutFirst(s: Hooks, sub: Sub)
    requires s.events == [E] && s.subs == [sub] && Wants(sub, E)
    requires s.processed == {} && s.dels == [] && s.clock == 0 && s.flights == []
    ensures var s' := Apply(s, Fanout(0));
            s'.dels == [Delivery(0, 0, 0, Pending, 0)] && s'.clock == 0 && s'.flights == [] && s'.subs == s.subs && s'.events == s.events
  {
    FirstIds(sub);
    FanoutAllLast(s, [], 0, 0);
    assert [] + [0] == [0];
    assert DeliveriesFor(0, [0], 0) == [Delivery(0, 0, 0, Pending, 0)];
  }

  lemma FirstIds(sub: Sub)
    requires Wants(sub, E)
    ensures PendingEvents(1, {}, 0, 100) == [0] && Matching([sub], E) == [0]
  {
    assert PendingEvents(1, {}, 1, 99) == [];
    assert [sub][..0] == [];
  }

  lemma ExecSnoc(acts: seq<Act>, a: Act)
    ensures Exec(Empty, acts + [a]) == Apply(Exec(Empty, acts), a)
  {
    assert (acts + [a])[..|acts|] == acts;
  }

  lemma StartPicksZero(s: Hooks, d: Delivery)
    requires s.dels == [d] && d == Delivery(0, 0, 0, Pending, 0) && s.clock == 0
    requires |s.subs| == 1 && s.subs[0].active && |s.events| == 1
    ensures var s' := Apply(s, StartTick(0, [0], {})); s' == s.(flights := s.flights + [Flight(0, 1)])
  {
    OnlyZero();
    ZeroIsDue(d);
    StartsZero(s, d);
  }

  lemma StartsOne(s: Hooks, id: nat)
    requires id < |s.dels|
    ensures StartAll(s, [id]) == StartOne(s, id)
  {
    assert [id][..0] == [];
  }

  lemma StartsZero(s: Hooks, d: Delivery)
    requires s.dels == [d] && d == Delivery(0, 0, 0, Pending, 0)
    requires |s.subs| == 1 && s.subs[0].active && |s.events| == 1
    ensures StartAll(s, [0]) == s.(flights := s.flights + [Flight(0, 1)])
  {
    StartsOne(s, 0);
    assert s.dels[0] == d;
  }

  lemma ZeroIsDue(d: Delivery)
    requires d == Delivery(0, 0, 0, Pending, 0)
    ensures DueBatch([d], 0, DELIVERY_LIMIT, [0])
  {
    assert IsDue([d], 0, 0);
    assert 0 in [0];
  }

  lemma OnlyZero()
    ensures Without([0], {}) == [0]
  {
    assert [0][..0] == [];
  }
}
