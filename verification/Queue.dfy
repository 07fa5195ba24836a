/** Progress of the delivery queue of src/services/webhooks.ts: it drains, and a due row is not passed over for ever.
    Both hold as long as no tick starts a row whose request is still in flight. */
module Queue {
  import opened Webhooks
  import opened Lifecycle

  // ---- a finite set of events drains ----

  function Left(d: Delivery): nat {
    if d.status.Pending? && d.attempts < MAX_ATTEMPTS then MAX_ATTEMPTS - d.attempts else 0
  }

  /** The attempts still owed to pending deliveries. */
  function Work(dels: seq<Delivery>): nat {
    if dels == [] then 0 else Work(dels[..|dels| - 1]) + Left(dels[|dels| - 1])
  }

  lemma {:induction false} WorkUpdate(dels: seq<Delivery>, id: nat, d: Delivery)
    requires id < |dels|
    ensures Work(dels[id := d]) == Work(dels) - Left(dels[id]) + Left(d)
  {
    var n := |dels| - 1;
    if id == n {
      assert dels[id := d][..n] == dels[..n];
    } else {
      WorkUpdate(dels[..n], id, d);
      assert dels[id := d][..n] == dels[..n][id := d];
    }
  }

  lemma {:induction false} StartLowersWork(s: Hooks, batch: seq<nat>)
    requires forall a :: 0 <= a < |batch| ==> batch[a] < |s.dels|
    ensures Work(StartAll(s, batch).dels) <= Work(s.dels)
  {
    if batch != [] {
      var n := |batch| - 1;
      StartLowersWork(s, batch[..n]);
      var s1 := StartAll(s, batch[..n]);
      WorkUpdate(s1.dels, batch[n], s1.dels[batch[n]].(status := Failed));
    }
  }

  predicate Quiet(a: Act) {
    !a.Fanout? && !a.FanoutStops?
  }

  /** The outcomes recorded by a run. */
  ghost function SettleCount(s: Hooks, acts: seq<Act>): nat {
    if acts == [] then 0 else
      var init, a := acts[..|acts| - 1], acts[|acts| - 1];
      SettleCount(s, init) + (if a.Settle? && Enabled(Exec(s, init), a) then 1 else 0)
  }

  lemma StepLowersWork(s: Hooks, a: Act)
    requires AttemptsOk(s) && FlightsOk(s) && Quiet(a)
    ensures Work(Apply(s, a).dels) + (if a.Settle? && Enabled(s, a) then 1 else 0) <= Work(s.dels)
  {
    if Enabled(s, a) {
      match a
      case StartTick(now, batch, bad) =>
        BatchPending(s, batch, now);
        WithoutMembers(batch, bad);
        StartLowersWork(s, Without(batch, bad));
      case Settle(k, outcome, now) =>
        var f := s.flights[k];
        assert FlightOk(s, f) && RowOk(s, f.id);
        WorkUpdate(s.dels, f.id, Closed(s.dels[f.id], f.attempt, outcome, now));
      case _ =>
    }
  }

  lemma {:induction false} FreeKeepsAttempts(s: Hooks, acts: seq<Act>)
    requires AttemptsOk(s)
    ensures AttemptsOk(Exec(s, acts))
  {
    if acts != [] {
      FreeKeepsAttempts(s, acts[..|acts| - 1]);
      StepKeepsAttempts(Exec(s, acts[..|acts| - 1]), acts[|acts| - 1]);
    }
  }

  /** Once no more events are fanned out, every recorded outcome lowers the owed attempts, so at most `Work` more
      can be recorded, whatever the receivers answer and whatever fails or dies. */
  lemma {:induction false} QueueDrains(s: Hooks, acts: seq<Act>)
    requires AttemptsOk(s) && FlightsOk(s) && CollisionFree(s, acts) && forall a: Act :: a in acts ==> Quiet(a)
    ensures Work(Exec(s, acts).dels) + SettleCount(s, acts) <= Work(s.dels)
  {
    if acts != [] {
      var init, a := acts[..|acts| - 1], acts[|acts| - 1];
      QueueDrains(s, init);
      FreeKeepsAttempts(s, init);
      FreeKeepsFlights(s, init);
      assert Quiet(a);
      StepLowersWork(Exec(s, init), a);
    }
  }

  // ---- bounded waiting ----

  /** The rows not in flight that the query may still list before delivery d. */
  ghost function Ahead(s: Hooks, d: nat): set<nat>
    requires d < |s.dels|
  {
    set id | 0 <= id < |s.dels| && id != d && MayPrecede(s, id, d)
  }

  ghost predicate MayPrecede(s: Hooks, id: nat, d: nat)
    requires id < |s.dels| && d < |s.dels|
  {
    s.dels[id].status.Pending? && s.dels[id].next <= s.dels[d].next && !InFlight(s, id)
  }

  ghost predicate Waits(s: Hooks, d: nat, next: nat) {
    d < |s.dels| && s.dels[d].status.Pending? && s.dels[d].next == next && !InFlight(s, d)
  }

  /** Fan-outs run after d fell due, every tick runs and lists a batch without d, and starts no row in flight. */
  ghost predicate WaitStep(s: Hooks, a: Act, d: nat, next: nat) {
    && !Collides(s, a)
    && (a.Fanout? || a.FanoutStops? ==> a.now > next)
    && (a.StartTick? ==> Enabled(s, a) && d !in a.batch)
  }

  ghost predicate WaitRun(s: Hooks, acts: seq<Act>, d: nat, next: nat) {
    acts == [] || (WaitRun(s, acts[..|acts| - 1], d, next) && WaitStep(Exec(s, acts[..|acts| - 1]), acts[|acts| - 1], d, next))
  }

  function TickCount(acts: seq<Act>): nat {
    if acts == [] then 0 else TickCount(acts[..|acts| - 1]) + (if acts[|acts| - 1].StartTick? then 1 else 0)
  }

  /** The rows a step puts back in front: those whose requests a death drops, the one whose outcome could not be
      recorded, those of a batch that threw before their request. */
  function Setback(s: Hooks, a: Act): nat {
    match a
    case FanoutStops(_, _, _, dies) => if dies then |s.flights| else 0
    case StartTick(_, batch, bad) => WithoutMembers(batch, bad); |batch| - |Without(batch, bad)|
    case SettleFails(_, _) => 1
    case Restart => |s.flights|
    case _ => 0
  }

  ghost function Setbacks(s: Hooks, acts: seq<Act>): nat {
    if acts == [] then 0 else Setbacks(s, acts[..|acts| - 1]) + Setback(Exec(s, acts[..|acts| - 1]), acts[|acts| - 1])
  }

  function ToSet(xs: seq<nat>): set<nat> {
    set x | x in xs
  }

  lemma {:induction false} SetOfDistinct(xs: seq<nat>)
    ensures |ToSet(xs)| <= |xs|
    ensures Distinct(xs) ==> |ToSet(xs)| == |xs|
  {
    if xs == [] {
      assert ToSet(xs) == {};
    } else {
      var n := |xs| - 1;
      SetOfDistinct(xs[..n]);
      assert xs == xs[..n] + [xs[n]];
      assert ToSet(xs) == ToSet(xs[..n]) + {xs[n]};
    }
  }

  lemma SubsetCard(a: set<nat>, b: set<nat>)
    requires a <= b
    ensures |a| <= |b| && |b - a| == |b| - |a|
  {
    assert b == a + (b - a);
  }

  lemma AheadCard(a: set<nat>, picked: set<nat>, rest: set<nat>)
    requires picked <= a && rest <= a - picked
    ensures |rest| + |picked| <= |a|
  {
    SubsetCard(picked, a);
    SubsetCard(rest, a - picked);
  }

  /** A tick that passes over d fills its batch, and starts only rows ahead of d. */
  lemma BatchAhead(s: Hooks, a: Act, d: nat, next: nat)
    requires a.StartTick? && Waits(s, d, next) && next <= s.clock && WaitStep(s, a, d, next)
    ensures |a.batch| == 50 && ToSet(Without(a.batch, a.bad)) <= Ahead(s, d)
  {
    assert IsDue(s.dels, d, a.now);
    BatchPending(s, a.batch, a.now);
    WithoutMembers(a.batch, a.bad);
    forall x | x in Without(a.batch, a.bad) ensures x in Ahead(s, d) {
      var b :| 0 <= b < |a.batch| && a.batch[b] == x;
      assert s.dels[a.batch[b]].next <= s.dels[d].next;
    }
  }

  lemma TickShrinksAhead(s: Hooks, a: Act, d: nat, next: nat)
    requires a.StartTick? && Waits(s, d, next) && next <= s.clock && WaitStep(s, a, d, next)
    ensures var s' := Apply(s, a);
            Waits(s', d, next) && |Ahead(s', d)| + 50 <= |Ahead(s, d)| + Setback(s, a)
  {
    var started, s' := Without(a.batch, a.bad), Apply(s, a);
    BatchPending(s, a.batch, a.now);
    WithoutMembers(a.batch, a.bad);
    TickKeepsWaiting(s, s', started, d, next);
    BatchAhead(s, a, d, next);
    TickRemoves(s, s', started, d);
    SetOfDistinct(started);
    AheadCard(Ahead(s, d), ToSet(started), Ahead(s', d));
  }

  lemma TickKeepsWaiting(s: Hooks, s': Hooks, batch: seq<nat>, d: nat, next: nat)
    requires Distinct(batch) && forall a :: 0 <= a < |batch| ==> batch[a] < |s.dels|
    requires Waits(s, d, next) && d !in batch
    requires s'.dels == StartAll(s, batch).dels && s'.flights == StartAll(s, batch).flights
    ensures Waits(s', d, next)
  {
    StartFrames(s, batch);
    StartFlights(s, batch);
    forall f | f in s'.flights ensures f.id != d {
      var a :| 0 <= a < |s'.flights| && s'.flights[a] == f;
      if a < |s.flights| { assert s.flights[a] in s.flights; }
    }
  }

  lemma TickRemoves(s: Hooks, s': Hooks, batch: seq<nat>, d: nat)
    requires Distinct(batch) && forall a :: 0 <= a < |batch| ==> batch[a] < |s.dels|
    requires d < |s.dels| && d !in batch
    requires s'.dels == StartAll(s, batch).dels && s'.flights == StartAll(s, batch).flights
    ensures Ahead(s', d) <= Ahead(s, d) - ToSet(batch)
  {
    StartFrames(s, batch);
    StartGrows(s, batch);
    forall x | x in Ahead(s', d) ensures x in Ahead(s, d) && x !in batch {
      assert MayPrecede(s', x, d);
      if x in batch { StartedNotAhead(s, s', batch, x); }
      forall f | f in s.flights ensures f.id != x { assert f in s'.flights; }
    }
  }

  lemma StartedNotAhead(s: Hooks, s': Hooks, batch: seq<nat>, x: nat)
    requires x in batch && forall a :: 0 <= a < |batch| ==> batch[a] < |s.dels|
    requires s'.dels == StartAll(s, batch).dels && s'.flights == StartAll(s, batch).flights
    ensures x < |s'.dels| && (s'.dels[x].status.Failed? || InFlight(s', x))
  {
    StartedOrFailed(s, batch, x);
    if !s'.dels[x].status.Failed? {
      var l :| |s.flights| <= l < |s'.flights| && s'.flights[l].id == x;
      assert s'.flights[l] in s'.flights;
    }
  }

  /** The rows in flight. */
  ghost function Flying(s: Hooks): set<nat> {
    ToSet(seq(|s.flights|, a requires 0 <= a < |s.flights| => s.flights[a].id))
  }

  /** A death, or a lost request, puts back at most the rows of the requests it drops. */
  lemma DropReturns(s: Hooks, s': Hooks, d: nat, dropped: set<nat>)
    requires d < |s.dels| && s.dels <= s'.dels
    requires forall id :: |s.dels| <= id < |s'.dels| ==> s'.dels[id].next > s.dels[d].next
    requires forall f :: f in s.flights ==> f.id in dropped || InFlight(s', f.id)
    ensures Ahead(s', d) <= Ahead(s, d) + dropped && |Ahead(s', d)| <= |Ahead(s, d)| + |dropped|
  {
    forall x | x in Ahead(s', d) ensures x in Ahead(s, d) + dropped {
      assert x < |s.dels| && s'.dels[x] == s.dels[x] && MayPrecede(s', x, d);
      if x !in dropped { assert !InFlight(s, x); }
    }
    SubsetCard(Ahead(s', d), Ahead(s, d) + dropped);
    assert |Ahead(s, d) + dropped| <= |Ahead(s, d)| + |dropped|;
  }

  lemma OtherStepWaits(s: Hooks, a: Act, d: nat, next: nat)
    requires !a.StartTick? && !a.Settle? && Waits(s, d, next) && WaitStep(s, a, d, next)
    ensures var s' := Apply(s, a);
            Waits(s', d, next) && |Ahead(s', d)| <= |Ahead(s, d)| + Setback(s, a)
  {
    var s' := Apply(s, a);
    OtherStepsFresh(s, a);
    OtherStepsFlights(s, a);
    assert forall f :: f in s'.flights ==> f in s.flights;
    if a.SettleFails? && s'.flights != s.flights {
      OthersStay(s.flights, a.k);
      DropReturns(s, s', d, {s.flights[a.k].id});
    } else if s'.flights == s.flights {
      DropReturns(s, s', d, {});
    } else {
      var ids := seq(|s.flights|, b requires 0 <= b < |s.flights| => s.flights[b].id);
      forall f | f in s.flights ensures f.id in Flying(s) {
        var b :| 0 <= b < |s.flights| && s.flights[b] == f;
        assert ids[b] == f.id;
      }
      DropReturns(s, s', d, Flying(s));
      SetOfDistinct(ids);
    }
  }

  lemma SettleWaits(s: Hooks, a: Act, d: nat, next: nat)
    requires a.Settle? && FlightsOk(s) && Waits(s, d, next) && next <= s.clock
    ensures var s' := Apply(s, a);
            Waits(s', d, next) && |Ahead(s', d)| <= |Ahead(s, d)|
  {
    var s' := Apply(s, a);
    if Enabled(s, a) {
      var f := s.flights[a.k];
      assert f in s.flights && FlightOk(s, f);
      Pow2Positive(f.attempt - 1);
      OthersStay(s.flights, a.k);
      forall x | x in Ahead(s', d) ensures x in Ahead(s, d) {
        assert MayPrecede(s', x, d) && x != f.id;
        forall g | g in s.flights ensures g.id != x { assert g.id != f.id ==> g in s'.flights; }
      }
    }
    SubsetCard(Ahead(s', d), Ahead(s, d));
  }

  lemma OthersStay(flights: seq<Flight>, k: nat)
    requires k < |flights|
    ensures forall g :: g in flights[..k] + flights[k + 1..] ==> g in flights
    ensures forall g :: g in flights && g.id != flights[k].id ==> g in flights[..k] + flights[k + 1..]
  {
    assert flights == flights[..k] + [flights[k]] + flights[k + 1..];
  }

  lemma {:induction false} Pow2Positive(n: nat)
    ensures Pow2(n) >= 1
  {
    if n > 0 { Pow2Positive(n - 1); }
  }

  lemma WaitingStep(s: Hooks, a: Act, d: nat, next: nat)
    requires FlightsOk(s) && Waits(s, d, next) && next <= s.clock && WaitStep(s, a, d, next)
    ensures var s' := Apply(s, a);
            && Waits(s', d, next) && next <= s'.clock && FlightsOk(s')
            && |Ahead(s', d)| + (if a.StartTick? then 50 else 0) <= |Ahead(s, d)| + Setback(s, a)
  {
    StepKeepsFlights(s, a);
    if a.StartTick? {
      TickShrinksAhead(s, a, d, next);
    } else if a.Settle? {
      SettleWaits(s, a, d, next);
    } else {
      OtherStepWaits(s, a, d, next);
    }
  }

  lemma {:induction false} WaitingRun(s: Hooks, acts: seq<Act>, d: nat, next: nat)
    requires FlightsOk(s) && Waits(s, d, next) && next <= s.clock && WaitRun(s, acts, d, next)
    ensures var s' := Exec(s, acts);
            && Waits(s', d, next) && next <= s'.clock && FlightsOk(s')
            && |Ahead(s', d)| + 50 * TickCount(acts) <= |Ahead(s, d)| + Setbacks(s, acts)
  {
    if acts != [] {
      WaitingRun(s, acts[..|acts| - 1], d, next);
      WaitingStep(Exec(s, acts[..|acts| - 1]), acts[|acts| - 1], d, next);
    }
  }

  /** Bounded waiting: a due delivery with k rows in front of it is passed over by at most k / 50 ticks, so it is
      picked within k / 50 + 1, however many events are fanned out meanwhile. Each row that a death or a failure puts
      back in front counts once more; when ticks do not overlap that is at most 50 rows a death. */
  lemma BoundedWaiting(s: Hooks, acts: seq<Act>, d: nat)
    requires d < |s.dels| && FlightsOk(s) && Waits(s, d, s.dels[d].next) && s.dels[d].next <= s.clock
    requires WaitRun(s, acts, d, s.dels[d].next)
    ensures 50 * TickCount(acts) <= |Ahead(s, d)| + Setbacks(s, acts)
    ensures Setbacks(s, acts) == 0 ==> TickCount(acts) <= |Ahead(s, d)| / 50
    ensures |s.flights| <= 50 && CalmRun(s, acts) ==> 50 * TickCount(acts) <= |Ahead(s, d)| + 50 * Deaths(acts) + Failures(acts)
  {
    WaitingRun(s, acts, d, s.dels[d].next);
    if |s.flights| <= 50 && CalmRun(s, acts) { CalmSetbacks(s, acts); }
  }

  // ---- what a death costs when ticks do not overlap ----

  predicate Calm(s: Hooks, a: Act) {
    a.StartTick? ==> s.flights == []
  }

  ghost predicate CalmRun(s: Hooks, acts: seq<Act>) {
    acts == [] || (CalmRun(s, acts[..|acts| - 1]) && Calm(Exec(s, acts[..|acts| - 1]), acts[|acts| - 1]))
  }

  function Deaths(acts: seq<Act>): nat {
    if acts == [] then 0 else
      var a := acts[|acts| - 1];
      Deaths(acts[..|acts| - 1]) + (if a.Restart? || (a.FanoutStops? && a.dies) then 1 else 0)
  }

  function Lost(a: Act): nat {
    match a
    case SettleFails(_, _) => 1
    case StartTick(_, batch, bad) => WithoutMembers(batch, bad); |batch| - |Without(batch, bad)|
    case _ => 0
  }

  /** The failures other than deaths: outcomes not recorded, batch rows that threw before their request. */
  function Failures(acts: seq<Act>): nat {
    if acts == [] then 0 else
      Failures(acts[..|acts| - 1]) + Lost(acts[|acts| - 1])
  }

  lemma {:induction false} StartAddsOneEach(s: Hooks, batch: seq<nat>)
    requires forall a :: 0 <= a < |batch| ==> batch[a] < |s.dels|
    ensures |StartAll(s, batch).flights| <= |s.flights| + |batch|
  {
    if batch != [] { StartAddsOneEach(s, batch[..|batch| - 1]); }
  }

  lemma CalmStepSmall(s: Hooks, a: Act)
    requires |s.flights| <= 50 && Calm(s, a)
    ensures |Apply(s, a).flights| <= 50
    ensures !Collides(s, a)
  {
    if Enabled(s, a) && a.StartTick? {
      BatchPending(s, a.batch, a.now);
      WithoutMembers(a.batch, a.bad);
      StartAddsOneEach(s, Without(a.batch, a.bad));
    } else if !a.Settle? {
      if !a.StartTick? { OtherStepsFlights(s, a); }
    }
  }

  /** Ticks that do not overlap never start a row in flight, and a death then puts back at most 50 rows. */
  lemma {:induction false} CalmSetbacks(s: Hooks, acts: seq<Act>)
    requires |s.flights| <= 50 && CalmRun(s, acts)
    ensures CollisionFree(s, acts) && |Exec(s, acts).flights| <= 50
    ensures Setbacks(s, acts) <= 50 * Deaths(acts) + Failures(acts)
  {
    if acts != [] {
      CalmSetbacks(s, acts[..|acts| - 1]);
      CalmStepSmall(Exec(s, acts[..|acts| - 1]), acts[|acts| - 1]);
    }
  }
}
