/** The webhook worker of src/services/webhooks.ts over the webhook tables of src/db/database.ts.
    One `Label` is one stretch of JavaScript between two awaits, an insert by the emitter or by a
    subscriber, or a death of the process. Times are Date.now() milliseconds. */
module Webhooks {
  import opened ChainEvents

  const MAX_ATTEMPTS: nat := 3
  const BACKOFF_BASE_MS: nat := 30_000
  const FANOUT_LIMIT: nat := 100
  const DELIVERY_LIMIT: nat := 50

  /** A webhook_subscriptions row; `all` is the stored filter ["*"], otherwise `names` is the allowlist. */
  datatype Sub = Sub(wallet: string, all: bool, names: set<Stream>, active: bool)

  datatype Status = Pending | Delivered | Failed

  /** A webhook_deliveries row (its id is its position). */
  datatype Delivery = Delivery(event: nat, sub: nat, attempts: nat, status: Status, next: nat)

  /** A `deliverOne` awaiting its HTTP response, with the attempt number computed from the row it was given. */
  datatype Flight = Flight(id: nat, attempt: nat)

  /** How a request ended: 2xx, 4xx, or anything else (5xx, another code, timeout, network error, or a first
      status update that threw). */
  datatype Outcome = Accepted | Refused | Trouble

  /** `processed` holds the ids whose processed_at is set. `matched` (the subscriptions an event was fanned
      out to) and `failedAt` (when a delivery was last rescheduled) are history. */
  datatype Hooks = Hooks(
    events: seq<Event>,
    processed: set<nat>,
    subs: seq<Sub>,
    dels: seq<Delivery>,
    flights: seq<Flight>,
    clock: nat,
    matched: map<nat, seq<nat>>,
    failedAt: map<nat, nat>)

  datatype Act =
    | Insert(rows: seq<Event>)
    | Subscribe(sub: Sub)
    | Unsubscribe(id: nat)
    | Fanout(now: nat)
    | FanoutStops(now: nat, k: nat, m: nat, dies: bool)      // a throw, or a death, after k events and m deliveries of the next
    | StartTick(now: nat, batch: seq<nat>, bad: set<nat>)    // deliverDue up to the fetch calls; those of `bad` throw first
    | Settle(k: nat, outcome: Outcome, now: nat)
    | SettleFails(k: nat, now: nat)                          // the status update throws, in the catch block too
    | Restart

  const Empty := Hooks([], {}, [], [], [], 0, map[], map[])

  function Pow2(n: nat): nat {
    if n == 0 then 1 else 2 * Pow2(n - 1)
  }

  // ---- queries ----

  /** SELECT ... WHERE processed_at IS NULL ORDER BY id LIMIT ?, over ids i and up. */
  function PendingEvents(n: nat, processed: set<nat>, i: nat, limit: nat): (ids: seq<nat>)
    ensures forall k :: 0 <= k < |ids| ==> i <= ids[k] < n && ids[k] !in processed
    ensures forall a, b :: 0 <= a < b < |ids| ==> ids[a] < ids[b]
    decreases n - i
  {
    if i >= n || limit == 0 then [] else
    if i in processed then PendingEvents(n, processed, i + 1, limit)
    else [i] + PendingEvents(n, processed, i + 1, limit - 1)
  }

  /** The limit is respected, and a pending event is left out only for a full batch of older ones. */
  lemma {:induction false} PendingEventsComplete(n: nat, processed: set<nat>, i: nat, limit: nat, x: nat)
    ensures var ids := PendingEvents(n, processed, i, limit);
            && |ids| <= limit
            && (i <= x < n && x !in processed && x !in ids ==> |ids| == limit && forall k :: 0 <= k < |ids| ==> ids[k] < x)
    decreases n - i
  {
    if i < n && limit > 0 {
      if i in processed {
        PendingEventsComplete(n, processed, i + 1, limit, x);
      } else {
        PendingEventsComplete(n, processed, i + 1, limit - 1, x);
        var rest := PendingEvents(n, processed, i + 1, limit - 1);
        assert forall y :: y in [i] + rest <==> y == i || y in rest;
      }
    }
  }

  predicate Wants(s: Sub, e: Event) {
    s.active && s.wallet == e.row.wallet && (s.all || e.stream in s.names)
  }

  /** The subscriptions an event goes to, in id order. */
  function Matching(subs: seq<Sub>, e: Event): (js: seq<nat>)
    ensures forall j: nat :: j in js <==> j < |subs| && Wants(subs[j], e)
    ensures forall j: nat :: j in js <==>
              j < |subs| && subs[j].active && subs[j].wallet == e.row.wallet && (subs[j].all || e.stream in subs[j].names)
    ensures forall a, b :: 0 <= a < b < |js| ==> js[a] < js[b]
  {
    if subs == [] then [] else
      var n := |subs| - 1;
      var js := Matching(subs[..n], e);
      assert forall a :: 0 <= a < |js| ==> js[a] in js;
      assert forall j :: j in js + [n] <==> j in js || j == n;
      if Wants(subs[n], e) then js + [n] else js
  }

  predicate IsDue(dels: seq<Delivery>, id: nat, now: nat) {
    id < |dels| && dels[id].status.Pending? && dels[id].next <= now
  }

  predicate Distinct(xs: seq<nat>) {
    forall a, b :: 0 <= a < b < |xs| ==> xs[a] != xs[b]
  }

  /** SELECT ... WHERE status = 'pending' AND next_attempt_at <= now ORDER BY next_attempt_at LIMIT 50,
      ties in any order. */
  ghost predicate DueBatch(dels: seq<Delivery>, now: nat, limit: nat, batch: seq<nat>) {
    && |batch| <= limit && Distinct(batch)
    && (forall a :: 0 <= a < |batch| ==> IsDue(dels, batch[a], now))
    && (forall a, b :: 0 <= a < b < |batch| ==> dels[batch[a]].next <= dels[batch[b]].next)
    && (forall id: nat :: IsDue(dels, id, now) && id !in batch ==>
          |batch| == limit && forall a :: 0 <= a < |batch| ==> dels[batch[a]].next <= dels[id].next)
  }

  // ---- steps ----

  function DeliveriesFor(id: nat, js: seq<nat>, now: nat): seq<Delivery> {
    seq(|js|, k requires 0 <= k < |js| => Delivery(id, js[k], 0, Pending, now))
  }

  function FanoutOne(s: Hooks, id: nat, now: nat): Hooks
    requires id < |s.events|
  {
    var js := Matching(s.subs, s.events[id]);
    s.(dels := s.dels + DeliveriesFor(id, js, now), processed := s.processed + {id}, matched := s.matched[id := js])
  }

  function FanoutAll(s: Hooks, ids: seq<nat>, now: nat): (s': Hooks)
    requires forall k :: 0 <= k < |ids| ==> ids[k] < |s.events|
    ensures s'.events == s.events && s'.subs == s.subs && s'.flights == s.flights && s'.clock == s.clock
    ensures s'.failedAt == s.failedAt && forall i :: i in s'.processed <==> i in s.processed || i in ids
    ensures s.dels <= s'.dels
  {
    if ids == [] then s else
      assert ids == ids[..|ids| - 1] + [ids[|ids| - 1]];
      FanoutOne(FanoutAll(s, ids[..|ids| - 1], now), ids[|ids| - 1], now)
  }

  /** deliverOne up to its fetch: an inactive subscription or missing event fails the row at once. */
  function StartOne(s: Hooks, id: nat): Hooks
    requires id < |s.dels|
  {
    var d := s.dels[id];
    if !(d.sub < |s.subs| && s.subs[d.sub].active) || d.event >= |s.events| then
      s.(dels := s.dels[id := d.(status := Failed)])
    else
      s.(flights := s.flights + [Flight(id, d.attempts + 1)])
  }

  function StartAll(s: Hooks, batch: seq<nat>): (s': Hooks)
    requires forall a :: 0 <= a < |batch| ==> batch[a] < |s.dels|
    ensures |s'.dels| == |s.dels| && s' == s.(dels := s'.dels, flights := s'.flights)
  {
    if batch == [] then s else StartOne(StartAll(s, batch[..|batch| - 1]), batch[|batch| - 1])
  }

  /** The rows of a batch that are started. */
  function Without(batch: seq<nat>, bad: set<nat>): seq<nat> {
    if batch == [] then [] else
      var init, last := batch[..|batch| - 1], batch[|batch| - 1];
      if last in bad then Without(init, bad) else Without(init, bad) + [last]
  }

  lemma {:induction false} WithoutMembers(batch: seq<nat>, bad: set<nat>)
    ensures forall x :: x in Without(batch, bad) <==> x in batch && x !in bad
    ensures forall a :: 0 <= a < |Without(batch, bad)| ==> Without(batch, bad)[a] in batch
    ensures Distinct(batch) ==> Distinct(Without(batch, bad))
    ensures |Without(batch, bad)| <= |batch|
  {
    if batch != [] {
      var init, last := batch[..|batch| - 1], batch[|batch| - 1];
      assert batch == init + [last];
      WithoutMembers(init, bad);
      assert forall a :: 0 <= a < |Without(init, bad)| ==> Without(init, bad)[a] in Without(init, bad);
    }
  }

  lemma BatchPending(s: Hooks, batch: seq<nat>, now: nat)
    requires DueBatch(s.dels, now, DELIVERY_LIMIT, batch)
    ensures forall x :: x in batch ==> x < |s.dels| && s.dels[x].status.Pending? && s.dels[x].next <= now
  {
    forall x | x in batch ensures x < |s.dels| && s.dels[x].status.Pending? && s.dels[x].next <= now {
      var a :| 0 <= a < |batch| && batch[a] == x;
      assert IsDue(s.dels, batch[a], now);
    }
  }

  lemma FanoutAllLast(s: Hooks, ids: seq<nat>, id: nat, now: nat)
    requires id < |s.events| && forall k :: 0 <= k < |ids| ==> ids[k] < |s.events|
    ensures FanoutAll(s, ids + [id], now) == FanoutOne(FanoutAll(s, ids, now), id, now)
  {
    assert (ids + [id])[..|ids|] == ids;
  }

  lemma StartAllLast(s: Hooks, batch: seq<nat>, id: nat)
    requires id < |s.dels| && forall a :: 0 <= a < |batch| ==> batch[a] < |s.dels|
    ensures StartAll(s, batch + [id]) == StartOne(StartAll(s, batch), id)
  {
    assert (batch + [id])[..|batch|] == batch;
  }

  /** scheduleRetryOrFail and the status branches of deliverOne. */
  function Closed(d: Delivery, attempt: nat, outcome: Outcome, now: nat): Delivery
    requires attempt >= 1
  {
    match outcome
    case Accepted => d.(status := Delivered, attempts := attempt)
    case Refused => d.(status := Failed, attempts := attempt)
    case Trouble =>
      if attempt >= MAX_ATTEMPTS then d.(status := Failed, attempts := attempt)
      else d.(status := Pending, attempts := attempt, next := now + BACKOFF_BASE_MS * Pow2(attempt - 1))
  }

  ghost predicate Enabled(s: Hooks, a: Act) {
    match a
    case Insert(_) => true
    case Subscribe(_) => true
    case Unsubscribe(id) => id < |s.subs|
    case Fanout(now) => s.clock <= now
    case FanoutStops(now, k, m, _) =>
      var ids := PendingEvents(|s.events|, s.processed, 0, FANOUT_LIMIT);
      s.clock <= now && k < |ids| && m <= |Matching(s.subs, s.events[ids[k]])|
    case StartTick(now, batch, _) => s.clock <= now && DueBatch(s.dels, now, DELIVERY_LIMIT, batch)
    case Settle(k, _, now) =>
      s.clock <= now && k < |s.flights| && s.flights[k].id < |s.dels| && s.flights[k].attempt >= 1
    case SettleFails(k, now) => s.clock <= now && k < |s.flights|
    case Restart => true
  }

  ghost function Apply(s: Hooks, a: Act): Hooks {
    if !Enabled(s, a) then s else
    match a
    case Insert(rows) => s.(events := s.events + rows)
    case Subscribe(sub) => s.(subs := s.subs + [sub])
    case Unsubscribe(id) => s.(subs := s.subs[id := s.subs[id].(active := false)])
    case Fanout(now) => FanoutAll(s, PendingEvents(|s.events|, s.processed, 0, FANOUT_LIMIT), now).(clock := now)
    case FanoutStops(now, k, m, dies) =>
      var ids := PendingEvents(|s.events|, s.processed, 0, FANOUT_LIMIT);
      var s1 := FanoutAll(s, ids[..k], now);
      s1.(dels := s1.dels + DeliveriesFor(ids[k], Matching(s.subs, s.events[ids[k]])[..m], now),
          flights := if dies then [] else s.flights, clock := now)
    case StartTick(now, batch, bad) => BatchPending(s, batch, now); WithoutMembers(batch, bad); StartAll(s, Without(batch, bad)).(clock := now)
    case Settle(k, outcome, now) =>
      var f := s.flights[k];
      s.(dels := s.dels[f.id := Closed(s.dels[f.id], f.attempt, outcome, now)],
         flights := s.flights[..k] + s.flights[k + 1..], clock := now,
         failedAt := if outcome.Trouble? then s.failedAt[f.id := now] else s.failedAt)
    case SettleFails(k, now) => s.(flights := s.flights[..k] + s.flights[k + 1..], clock := now)
    case Restart => s.(flights := [])
  }

  ghost function Exec(s: Hooks, acts: seq<Act>): Hooks {
    if acts == [] then s else Apply(Exec(s, acts[..|acts| - 1]), acts[|acts| - 1])
  }

  lemma ExecOne(s: Hooks, a: Act)
    ensures Exec(s, [a]) == Apply(s, a) && Exec(s, []) == s
  {
    assert [a][..0] == [];
  }

  // ---- fan-out ----

  /** The (event_id, subscription_id) columns. */
  function Owners(dels: seq<Delivery>): seq<(nat, nat)> {
    seq(|dels|, k requires 0 <= k < |dels| => (dels[k].event, dels[k].sub))
  }

  function Count(dels: seq<Delivery>, i: nat, j: nat): nat {
    multiset(Owners(dels))[(i, j)]
  }

  lemma CountAppend(xs: seq<Delivery>, ys: seq<Delivery>, i: nat, j: nat)
    ensures Count(xs + ys, i, j) == Count(xs, i, j) + Count(ys, i, j)
  {
    assert Owners(xs + ys) == Owners(xs) + Owners(ys);
  }

  lemma {:induction false} CountFresh(id: nat, js: seq<nat>, now: nat, i: nat, j: nat)
    requires forall a, b :: 0 <= a < b < |js| ==> js[a] < js[b]
    ensures Count(DeliveriesFor(id, js, now), i, j) == if i == id && j in js then 1 else 0
  {
    if js == [] {
      assert Owners(DeliveriesFor(id, js, now)) == [];
    } else {
      var n := |js| - 1;
      CountFresh(id, js[..n], now, i, j);
      assert js == js[..n] + [js[n]];
      assert Owners(DeliveriesFor(id, js, now)) == Owners(DeliveriesFor(id, js[..n], now)) + [(id, js[n])];
    }
  }

  lemma StartKeepsOwners(s: Hooks, batch: seq<nat>)
    requires forall a :: 0 <= a < |batch| ==> batch[a] < |s.dels|
    ensures Owners(StartAll(s, batch).dels) == Owners(s.dels)
  {
    if batch != [] {
      StartKeepsOwners(s, batch[..|batch| - 1]);
    }
  }

  /** Every processed event has a delivery for each subscription it matched. */
  ghost predicate FannedOut(s: Hooks) {
    && s.matched.Keys == s.processed
    && (forall i :: i in s.processed ==> i < |s.events|)
    && (forall i, j :: i in s.processed && j in s.matched[i] ==> Count(s.dels, i, j) >= 1)
  }

  /** ... exactly one, and there is no other delivery. */
  ghost predicate FannedOutOnce(s: Hooks) {
    && s.matched.Keys == s.processed
    && (forall i :: i in s.processed ==> i < |s.events|)
    && (forall i, j :: Count(s.dels, i, j) == if i in s.processed && j in s.matched[i] then 1 else 0)
  }

  lemma {:induction false} FanoutKeeps(s: Hooks, ids: seq<nat>, now: nat)
    requires forall k :: 0 <= k < |ids| ==> ids[k] < |s.events| && ids[k] !in s.processed
    requires Distinct(ids)
    ensures FannedOut(s) ==> FannedOut(FanoutAll(s, ids, now))
    ensures FannedOutOnce(s) ==> FannedOutOnce(FanoutAll(s, ids, now))
    ensures var s' := FanoutAll(s, ids, now);
            (forall i :: i in s.matched ==> i in s'.matched && (i !in ids ==> s'.matched[i] == s.matched[i]))
            && (forall i :: i in ids ==> i in s'.matched && s'.matched[i] == Matching(s.subs, s.events[i]))
  {
    if ids != [] {
      var n := |ids| - 1;
      FanoutKeeps(s, ids[..n], now);
      var s1 := FanoutAll(s, ids[..n], now);
      assert ids == ids[..n] + [ids[n]];
      assert ids[n] !in s1.processed;
      FanoutOneKeeps(s1, ids[n], now);
    }
  }

  lemma FanoutOneKeeps(s: Hooks, id: nat, now: nat)
    requires id < |s.events| && id !in s.processed
    ensures FannedOut(s) ==> FannedOut(FanoutOne(s, id, now))
    ensures FannedOutOnce(s) ==> FannedOutOnce(FanoutOne(s, id, now))
  {
    var s' := FanoutOne(s, id, now);
    var js := Matching(s.subs, s.events[id]);
    forall i, j
      ensures Count(s'.dels, i, j) == Count(s.dels, i, j) + (if i == id && j in js then 1 else 0)
    {
      CountAppend(s.dels, DeliveriesFor(id, js, now), i, j);
      CountFresh(id, js, now, i, j);
    }
  }

  /** Steps that leave the fan-out columns alone. */
  lemma SameOwners(s: Hooks, s': Hooks)
    requires Owners(s'.dels) == Owners(s.dels) && s'.processed == s.processed && s'.matched == s.matched
    requires |s.events| <= |s'.events|
    ensures FannedOut(s) ==> FannedOut(s')
    ensures FannedOutOnce(s) ==> FannedOutOnce(s')
  {
    assert forall i, j :: Count(s'.dels, i, j) == Count(s.dels, i, j);
  }

  /** A fan-out that stops early leaves extra rows behind, for an event still pending. */
  lemma StoppingKeepsFannedOut(s: Hooks, s': Hooks, extra: seq<Delivery>)
    requires FannedOut(s) && s' == s.(dels := s.dels + extra, flights := s'.flights, clock := s'.clock)
    ensures FannedOut(s')
  {
    forall i, j ensures Count(s'.dels, i, j) >= Count(s.dels, i, j) {
      CountAppend(s.dels, extra, i, j);
    }
  }

  lemma StepKeepsFannedOut(s: Hooks, a: Act)
    ensures FannedOut(s) ==> FannedOut(Apply(s, a))
    ensures FannedOutOnce(s) && !a.FanoutStops? ==> FannedOutOnce(Apply(s, a))
  {
    if Enabled(s, a) {
      if a.Fanout? {
        var ids := PendingEvents(|s.events|, s.processed, 0, FANOUT_LIMIT);
        FanoutKeeps(s, ids, a.now);
        SameOwners(FanoutAll(s, ids, a.now), Apply(s, a));
      } else if a.FanoutStops? {
        if FannedOut(s) { StopKeepsFannedOut(s, a); }
      } else {
        OtherOwners(s, a);
        SameOwners(s, Apply(s, a));
      }
    }
  }

  lemma StopKeepsFannedOut(s: Hooks, a: Act)
    requires FannedOut(s) && Enabled(s, a) && a.FanoutStops?
    ensures FannedOut(Apply(s, a))
  {
    var ids := PendingEvents(|s.events|, s.processed, 0, FANOUT_LIMIT);
    FanoutKeeps(s, ids[..a.k], a.now);
    StoppingKeepsFannedOut(FanoutAll(s, ids[..a.k], a.now), Apply(s, a),
      DeliveriesFor(ids[a.k], Matching(s.subs, s.events[ids[a.k]])[..a.m], a.now));
  }

  /** At least once, over every run, with throws and deaths in the middle of a fan-out. */
  lemma {:induction false} FanoutLosesNothing(acts: seq<Act>)
    ensures FannedOut(Exec(Empty, acts))
  {
    if acts != [] {
      FanoutLosesNothing(acts[..|acts| - 1]);
      StepKeepsFannedOut(Exec(Empty, acts[..|acts| - 1]), acts[|acts| - 1]);
    }
  }

  // ---- exactly once, exactly when ----

  /** A fan-out that stops after inserting a delivery of an event it does not get to mark. */
  ghost predicate DirtyStop(s: Hooks, a: Act) {
    Enabled(s, a) && a.FanoutStops? && a.m > 0
  }

  ghost predicate NoDirtyStop(acts: seq<Act>) {
    acts == [] || (NoDirtyStop(acts[..|acts| - 1]) && !DirtyStop(Exec(Empty, acts[..|acts| - 1]), acts[|acts| - 1]))
  }

  /** The deliveries an event owes a subscription. */
  function Owed(s: Hooks, i: nat, j: nat): nat {
    if i in s.processed && i in s.matched && j in s.matched[i] then 1 else 0
  }

  ghost predicate Excess(s: Hooks) {
    exists i: nat, j: nat :: Count(s.dels, i, j) > Owed(s, i, j)
  }

  lemma OnceIsNoExcess(s: Hooks)
    requires FannedOut(s)
    ensures FannedOutOnce(s) <==> !Excess(s)
  {
    if !Excess(s) {
      forall i: nat, j: nat ensures Count(s.dels, i, j) == if i in s.processed && j in s.matched[i] then 1 else 0 {
        assert Count(s.dels, i, j) <= Owed(s, i, j);
      }
    }
  }

  /** Rows already in excess stay in excess: a fan-out adds one per match and owes one more. */
  lemma {:induction false} FanoutKeepsExcess(s: Hooks, ids: seq<nat>, now: nat, i: nat, j: nat)
    requires forall k :: 0 <= k < |ids| ==> ids[k] < |s.events| && ids[k] !in s.processed
    requires Distinct(ids) && s.matched.Keys == s.processed && Count(s.dels, i, j) > Owed(s, i, j)
    ensures var s' := FanoutAll(s, ids, now); Count(s'.dels, i, j) > Owed(s', i, j) && s'.matched.Keys == s'.processed
  {
    if ids != [] {
      var init, id := ids[..|ids| - 1], ids[|ids| - 1];
      assert ids == init + [id];
      FanoutKeepsExcess(s, init, now, i, j);
      var s1 := FanoutAll(s, init, now);
      assert id !in s1.processed;
      OneKeepsExcess(s1, id, now, i, j);
    }
  }

  lemma OneKeepsExcess(s: Hooks, id: nat, now: nat, i: nat, j: nat)
    requires id < |s.events| && id !in s.processed && s.matched.Keys == s.processed && Count(s.dels, i, j) > Owed(s, i, j)
    ensures var s' := FanoutOne(s, id, now); Count(s'.dels, i, j) > Owed(s', i, j) && s'.matched.Keys == s'.processed
  {
    var js := Matching(s.subs, s.events[id]);
    CountAppend(s.dels, DeliveriesFor(id, js, now), i, j);
    CountFresh(id, js, now, i, j);
  }

  /** Steps that insert deliveries without marking their event, or leave the fan-out columns alone. */
  lemma MoreKeepsExcess(s: Hooks, s': Hooks, extra: seq<(nat, nat)>, i: nat, j: nat)
    requires Owners(s'.dels) == Owners(s.dels) + extra && s'.processed == s.processed && s'.matched == s.matched
    requires Count(s.dels, i, j) > Owed(s, i, j)
    ensures Count(s'.dels, i, j) > Owed(s', i, j)
  {
  }

  lemma StepKeepsExcess(s: Hooks, a: Act)
    requires FannedOut(s) && Excess(s)
    ensures Excess(Apply(s, a))
  {
    if Enabled(s, a) {
      var i: nat, j: nat :| Count(s.dels, i, j) > Owed(s, i, j);
      var s' := Apply(s, a);
      if a.Fanout? {
        WholeKeepsExcess(s, a.now, i, j);
      } else if a.FanoutStops? {
        StopKeepsExcess(s, a, i, j);
      } else {
        OtherOwners(s, a);
        MoreKeepsExcess(s, s', [], i, j);
      }
      assert Count(s'.dels, i, j) > Owed(s', i, j);
    }
  }

  lemma WholeKeepsExcess(s: Hooks, now: nat, i: nat, j: nat)
    requires FannedOut(s) && Enabled(s, Fanout(now)) && Count(s.dels, i, j) > Owed(s, i, j)
    ensures Count(Apply(s, Fanout(now)).dels, i, j) > Owed(Apply(s, Fanout(now)), i, j)
  {
    var ids := PendingEvents(|s.events|, s.processed, 0, FANOUT_LIMIT);
    FanoutKeepsExcess(s, ids, now, i, j);
    MoreKeepsExcess(FanoutAll(s, ids, now), Apply(s, Fanout(now)), [], i, j);
  }

  lemma StopKeepsExcess(s: Hooks, a: Act, i: nat, j: nat)
    requires FannedOut(s) && Enabled(s, a) && a.FanoutStops? && Count(s.dels, i, j) > Owed(s, i, j)
    ensures Count(Apply(s, a).dels, i, j) > Owed(Apply(s, a), i, j)
  {
    var ids := PendingEvents(|s.events|, s.processed, 0, FANOUT_LIMIT);
    var s1, extra := FanoutAll(s, ids[..a.k], a.now), DeliveriesFor(ids[a.k], Matching(s.subs, s.events[ids[a.k]])[..a.m], a.now);
    FanoutKeepsExcess(s, ids[..a.k], a.now, i, j);
    OwnersAppend(s1.dels, extra);
    MoreKeepsExcess(s1, Apply(s, a), Owners(extra), i, j);
  }

  lemma OwnersAppend(xs: seq<Delivery>, ys: seq<Delivery>)
    ensures Owners(xs + ys) == Owners(xs) + Owners(ys)
  {
  }

  /** Steps outside the fan-out leave its columns alone. */
  lemma OtherOwners(s: Hooks, a: Act)
    requires !a.Fanout? && !a.FanoutStops?
    ensures var s' := Apply(s, a);
            Owners(s'.dels) == Owners(s.dels) && s'.processed == s.processed && s'.matched == s.matched && |s.events| <= |s'.events|
  {
    if Enabled(s, a) && a.StartTick? {
      BatchPending(s, a.batch, a.now);
      WithoutMembers(a.batch, a.bad);
      StartKeepsOwners(s, Without(a.batch, a.bad));
    }
  }

  /** What a stop leaves: whole fan-outs of the events before the one it interrupts, which stays pending. */
  lemma StopShape(s: Hooks, a: Act) returns (s1: Hooks, id: nat, js: seq<nat>)
    requires Enabled(s, a) && a.FanoutStops?
    ensures FannedOutOnce(s) ==> FannedOutOnce(s1)
    ensures id !in s1.processed && (js == [] <==> a.m == 0) && forall x, y :: 0 <= x < y < |js| ==> js[x] < js[y]
    ensures var s' := Apply(s, a);
            s' == s1.(dels := s1.dels + DeliveriesFor(id, js, a.now), flights := s'.flights, clock := s'.clock)
  {
    var ids := PendingEvents(|s.events|, s.processed, 0, FANOUT_LIMIT);
    s1, id, js := FanoutAll(s, ids[..a.k], a.now), ids[a.k], Matching(s.subs, s.events[ids[a.k]])[..a.m];
    if FannedOutOnce(s) { PrefixIsOnce(s, a.k, a.now); }
  }

  lemma PrefixIsOnce(s: Hooks, k: nat, now: nat)
    requires FannedOutOnce(s) && k <= |PendingEvents(|s.events|, s.processed, 0, FANOUT_LIMIT)|
    ensures FannedOutOnce(FanoutAll(s, PendingEvents(|s.events|, s.processed, 0, FANOUT_LIMIT)[..k], now))
  {
    FanoutKeeps(s, PendingEvents(|s.events|, s.processed, 0, FANOUT_LIMIT)[..k], now);
  }

  /** A stop is harmless iff no delivery of the event it interrupts was inserted. */
  lemma StopIsOnce(s: Hooks, a: Act)
    requires FannedOutOnce(s) && Enabled(s, a) && a.FanoutStops?
    ensures FannedOutOnce(Apply(s, a)) <==> a.m == 0
  {
    var s1, id, js := StopShape(s, a);
    ExtraIsOnce(s1, Apply(s, a), id, js, a.now);
  }

  lemma ExtraIsOnce(s: Hooks, s': Hooks, id: nat, js: seq<nat>, now: nat)
    requires FannedOutOnce(s) && id !in s.processed && forall a, b :: 0 <= a < b < |js| ==> js[a] < js[b]
    requires s' == s.(dels := s.dels + DeliveriesFor(id, js, now), flights := s'.flights, clock := s'.clock)
    ensures FannedOutOnce(s') <==> js == []
  {
    if js == [] {
      assert s'.dels == s.dels;
    } else {
      CountAppend(s.dels, DeliveriesFor(id, js, now), id, js[0]);
      CountFresh(id, js, now, id, js[0]);
      assert Count(s'.dels, id, js[0]) == 1;
    }
  }

  /** Exactly once, exactly when: over every run, the number of deliveries of event i to subscription j is 1 when
      the event is processed and matched j, else 0, iff no fan-out ever stopped (by a throw or a death) after
      inserting a delivery of an event it did not get to mark. */
  lemma {:induction false} FanoutExactlyOnceIff(acts: seq<Act>)
    ensures FannedOutOnce(Exec(Empty, acts)) <==> NoDirtyStop(acts)
  {
    if acts == [] {
      assert forall i, j :: Count([], i, j) == 0 by { assert Owners([]) == []; }
    } else {
      var init, a := acts[..|acts| - 1], acts[|acts| - 1];
      FanoutExactlyOnceIff(init);
      FanoutLosesNothing(init);
      OnceStep(Exec(Empty, init), a);
    }
  }

  lemma OnceStep(s: Hooks, a: Act)
    requires FannedOut(s)
    ensures FannedOutOnce(Apply(s, a)) <==> FannedOutOnce(s) && !DirtyStop(s, a)
  {
    StepKeepsFannedOut(s, a);
    OnceIsNoExcess(s);
    OnceIsNoExcess(Apply(s, a));
    if Excess(s) {
      StepKeepsExcess(s, a);
    } else if Enabled(s, a) && a.FanoutStops? {
      StopIsOnce(s, a);
    }
  }

  /** What `matched` records: a processed event became processed at one step, and `matched` is the list of
      subscriptions active and matching in the state that step started from. */
  lemma {:induction false} MatchedAtFanout(acts: seq<Act>, i: nat) returns (k: nat)
    requires i in Exec(Empty, acts).processed
    ensures k < |acts| && i !in Exec(Empty, acts[..k]).processed && i in Exec(Empty, acts[..k + 1]).processed
    ensures i < |Exec(Empty, acts[..k]).events| && i in Exec(Empty, acts).matched
    ensures Exec(Empty, acts).matched[i] == Matching(Exec(Empty, acts[..k]).subs, Exec(Empty, acts[..k]).events[i])
  {
    var n := |acts| - 1;
    var s, a := Exec(Empty, acts[..n]), acts[n];
    FanoutLosesNothing(acts[..n]);
    StepMatches(s, a, i);
    if i in s.processed {
      k := MatchedAtFanout(acts[..n], i);
      assert acts[..n][..k] == acts[..k] && acts[..n][..k + 1] == acts[..k + 1];
    } else {
      k := n;
      assert acts[..n + 1] == acts;
    }
  }

  lemma StepMatches(s: Hooks, a: Act, i: nat)
    requires FannedOut(s) && i in Apply(s, a).processed
    ensures i in Apply(s, a).matched
    ensures i in s.processed ==> i in s.matched && Apply(s, a).matched[i] == s.matched[i]
    ensures i !in s.processed ==> i < |s.events| && Apply(s, a).matched[i] == Matching(s.subs, s.events[i])
  {
    var ids := PendingEvents(|s.events|, s.processed, 0, FANOUT_LIMIT);
    if Enabled(s, a) {
      match a
      case Fanout(now) => FanoutKeeps(s, ids, now);
      case FanoutStops(now, k, m, _) => FanoutKeeps(s, ids[..k], now);
      case _ =>
    }
  }
}
