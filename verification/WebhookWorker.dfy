/** The worker's code itself, over mutable tables; every method is proved against one step of `Webhooks`. */
module WebhookWorker {
  import opened Basics
  import C = ChainEvents
  import opened Webhooks

  class Worker {
    var events: seq<C.Event>
    var processed: set<nat>
    var subs: seq<Sub>
    var dels: seq<Delivery>
    ghost var flights: seq<Flight>
    ghost var clock: nat
    ghost var matched: map<nat, seq<nat>>
    ghost var failedAt: map<nat, nat>

    ghost function View(): Hooks reads this {
      Hooks(events, processed, subs, dels, flights, clock, matched, failedAt)
    }

    constructor ()
      ensures View() == Empty
    {
      events, processed, subs, dels, flights, clock, matched, failedAt := [], {}, [], [], [], 0, map[], map[];
    }

    method ListPendingEvents(limit: nat) returns (ids: seq<nat>)
      ensures ids == PendingEvents(|events|, processed, 0, limit)
    {
      ids := [];
      var i := 0;
      while i < |events| && |ids| < limit
        invariant 0 <= i <= |events| && |ids| <= limit
        invariant PendingEvents(|events|, processed, 0, limit) == ids + PendingEvents(|events|, processed, i, limit - |ids|)
      {
        if i !in processed {
          assert ids + ([i] + PendingEvents(|events|, processed, i + 1, limit - |ids| - 1))
              == (ids + [i]) + PendingEvents(|events|, processed, i + 1, limit - |ids| - 1);
          ids := ids + [i];
        }
        i := i + 1;
      }
    }

    /** The subscription query by wallet and the filter loop, inserting a delivery per match. */
    method FanoutEvent(id: nat, now: nat)
      requires id < |events|
      modifies this
      ensures View() == FanoutOne(old(View()), id, now)
    {
      ghost var before := dels;
      ghost var js: seq<nat> := [];
      for j := 0 to |subs|
        invariant View() == old(View()).(dels := dels)
        invariant dels == before + DeliveriesFor(id, js, now)
        invariant js == Matching(subs[..j], events[id])
      {
        assert subs[..j + 1][..j] == subs[..j];
        if subs[j].active && subs[j].wallet == events[id].row.wallet {
          if subs[j].all || events[id].stream in subs[j].names {
            AnotherDelivery(id, js, j, now);
            dels := dels + [Delivery(id, j, 0, Pending, now)];
            js := js + [j];
          }
        }
      }
      assert subs[..|subs|] == subs;
      processed := processed + {id};
      matched := matched[id := js];
    }

    static lemma AnotherDelivery(id: nat, js: seq<nat>, j: nat, now: nat)
      ensures DeliveriesFor(id, js + [j], now) == DeliveriesFor(id, js, now) + [Delivery(id, j, 0, Pending, now)]
    {
    }

    method FanoutPendingEvents(now: nat)
      requires clock <= now
      modifies this
      ensures View() == Webhooks.Apply(old(View()), Fanout(now))
    {
      ghost var s := View();
      var ids := ListPendingEvents(FANOUT_LIMIT);
      FanoutApplied(s, ids, now);
      FanoutIds(ids, now);
      clock := now;
    }

    static lemma FanoutApplied(s: Hooks, ids: seq<nat>, now: nat)
      requires s.clock <= now && ids == PendingEvents(|s.events|, s.processed, 0, FANOUT_LIMIT)
      ensures Webhooks.Apply(s, Fanout(now)) == FanoutAll(s, ids, now).(clock := now)
    {
    }

    method FanoutIds(ids: seq<nat>, now: nat)
      requires forall k :: 0 <= k < |ids| ==> ids[k] < |events|
      modifies this
      ensures View() == FanoutAll(old(View()), ids, now)
    {
      ghost var s := View();
      for k := 0 to |ids|
        invariant events == s.events && View() == FanoutAll(s, ids[..k], now)
      {
        assert ids[..k + 1] == ids[..k] + [ids[k]];
        FanoutAllLast(s, ids[..k], ids[k], now);
        FanoutEvent(ids[k], now);
      }
      assert ids[..|ids|] == ids;
    }

    /** The due row with the least next_attempt_at that is not in `batch`. */
    method NextDue(now: nat, batch: seq<nat>) returns (r: Option<nat>)
      ensures r.Some? ==> IsDue(dels, r.value, now) && r.value !in batch
                          && forall id: nat :: IsDue(dels, id, now) && id !in batch ==> dels[r.value].next <= dels[id].next
      ensures r.None? ==> forall id: nat :: IsDue(dels, id, now) ==> id in batch
    {
      r := None;
      for i := 0 to |dels|
        invariant r.Some? ==> r.value < i && IsDue(dels, r.value, now) && r.value !in batch
                              && forall id: nat :: id < i && IsDue(dels, id, now) && id !in batch ==> dels[r.value].next <= dels[id].next
        invariant r.None? ==> forall id: nat :: id < i && IsDue(dels, id, now) ==> id in batch
      {
        if dels[i].status.Pending? && dels[i].next <= now && i !in batch {
          if r.None? || dels[i].next < dels[r.value].next {
            r := Some(i);
          }
        }
      }
    }

    /** listDueWebhookDeliveries: WHERE, ORDER BY, LIMIT. */
    method ListDue(now: nat, limit: nat) returns (batch: seq<nat>)
      ensures DueBatch(dels, now, limit, batch)
    {
      batch := [];
      while |batch| < limit
        invariant |batch| <= limit && Distinct(batch)
        invariant forall a :: 0 <= a < |batch| ==> IsDue(dels, batch[a], now)
        invariant forall a, b :: 0 <= a < b < |batch| ==> dels[batch[a]].next <= dels[batch[b]].next
        invariant forall id: nat, a :: IsDue(dels, id, now) && id !in batch && 0 <= a < |batch| ==> dels[batch[a]].next <= dels[id].next
      {
        var r := NextDue(now, batch);
        if r.None? {
          return;
        }
        batch := batch + [r.value];
      }
    }

    /** deliverDue: pick the batch and run each deliverOne up to its fetch; those of the rows in `bad` throw first. */
    method DeliverDue(now: nat, bad: set<nat>) returns (batch: seq<nat>)
      requires clock <= now
      modifies this
      ensures DueBatch(old(dels), now, DELIVERY_LIMIT, batch)
      ensures View() == Webhooks.Apply(old(View()), StartTick(now, batch, bad))
    {
      ghost var s := View();
      batch := ListDue(now, DELIVERY_LIMIT);
      TickInBounds(s, now, batch, bad);
      TickApplied(s, now, batch, bad);
      StartBatch(batch, bad);
      clock := now;
    }

    static lemma TickInBounds(s: Hooks, now: nat, batch: seq<nat>, bad: set<nat>)
      requires DueBatch(s.dels, now, DELIVERY_LIMIT, batch)
      ensures forall a :: 0 <= a < |batch| ==> batch[a] < |s.dels|
      ensures forall a :: 0 <= a < |Without(batch, bad)| ==> Without(batch, bad)[a] < |s.dels|
    {
      BatchPending(s, batch, now);
      WithoutMembers(batch, bad);
      forall a | 0 <= a < |batch| ensures batch[a] < |s.dels| { assert batch[a] in batch; }
    }

    static lemma TickApplied(s: Hooks, now: nat, batch: seq<nat>, bad: set<nat>)
      requires s.clock <= now && DueBatch(s.dels, now, DELIVERY_LIMIT, batch)
      requires forall a :: 0 <= a < |Without(batch, bad)| ==> Without(batch, bad)[a] < |s.dels|
      ensures Webhooks.Apply(s, StartTick(now, batch, bad)) == StartAll(s, Without(batch, bad)).(clock := now)
    {
    }

    method StartBatch(batch: seq<nat>, bad: set<nat>)
      requires forall a :: 0 <= a < |batch| ==> batch[a] < |dels|
      requires forall a :: 0 <= a < |Without(batch, bad)| ==> Without(batch, bad)[a] < |dels|
      modifies this
      ensures View() == StartAll(old(View()), Without(batch, bad))
    {
      ghost var s := View();
      ghost var done: seq<nat> := [];
      for k := 0 to |batch|
        invariant done == Without(batch[..k], bad) && forall a :: 0 <= a < |done| ==> done[a] < |s.dels|
        invariant |dels| == |s.dels| && View() == StartAll(s, done)
      {
        assert batch[..k + 1][..k] == batch[..k];
        if batch[k] !in bad {
          StartAllLast(s, done, batch[k]);
          Start(batch[k]);
          done := done + [batch[k]];
        }
      }
      assert batch[..|batch|] == batch;
    }

    /** deliverOne up to its fetch. */
    method Start(id: nat)
      requires id < |dels|
      modifies this
      ensures View() == StartOne(old(View()), id)
    {
      var d := dels[id];
      if !(d.sub < |subs| && subs[d.sub].active) {
        dels := dels[id := d.(status := Failed)];
      } else if d.event >= |events| {
        dels := dels[id := d.(status := Failed)];
      } else {
        flights := flights + [Flight(id, d.attempts + 1)];
      }
    }

    /** The rest of deliverOne once its request has ended, with scheduleRetryOrFail. When recording the outcome
        throws, the catch block records a failure instead (`outcome` is then Trouble); when that throws too,
        nothing is recorded. */
    method Settle(ghost k: nat, id: nat, attempt: nat, outcome: Outcome, now: nat)
      requires k < |flights| && flights[k] == Flight(id, attempt) && id < |dels| && attempt >= 1 && clock <= now
      modifies this
      ensures View() == Webhooks.Apply(old(View()), Act.Settle(k, outcome, now))
      ensures outcome.Accepted? ==> dels[id].status == Delivered
      ensures outcome.Refused? || (outcome.Trouble? && attempt >= 3) ==> dels[id].status == Failed
      ensures outcome.Trouble? && attempt < 3 ==> dels[id].status == Pending && dels[id].next == now + (if attempt == 1 then 30_000 else 60_000)
      ensures dels[id].attempts == attempt && forall i :: 0 <= i < |dels| && i != id ==> dels[i] == old(dels[i])
    {
      assert Pow2(0) == 1 && Pow2(1) == 2;
      match outcome {
        case Accepted => dels := dels[id := dels[id].(status := Delivered, attempts := attempt)];
        case Refused => dels := dels[id := dels[id].(status := Failed, attempts := attempt)];
        case Trouble =>
          if attempt >= MAX_ATTEMPTS {
            dels := dels[id := dels[id].(status := Failed, attempts := attempt)];
          } else {
            dels := dels[id := dels[id].(status := Pending, attempts := attempt, next := now + BACKOFF_BASE_MS * Pow2(attempt - 1))];
          }
          failedAt := failedAt[id := now];
      }
      flights := flights[..k] + flights[k + 1..];
      clock := now;
    }

    method SettleThrows(ghost k: nat, now: nat)
      requires k < |flights| && clock <= now
      modifies this
      ensures View() == Webhooks.Apply(old(View()), SettleFails(k, now))
    {
      flights := flights[..k] + flights[k + 1..];
      clock := now;
    }
  }
}
