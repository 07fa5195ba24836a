/** What becomes of a delivery, read off the history of its requests alone: which outcome leads to which status, when the
    next attempt is due, and how many attempts a row gets (src/services/webhooks.ts:54-158). */
module Outcomes {
  import C = ChainEvents
  import opened Webhooks
  import opened Lifecycle

  // ---- the last thing that happened to a row ----

  datatype Verdict =
    | Untouched
    | Recorded(outcome: Outcome, attempt: nat, at: nat)   // a request ended so, at that time
    | ClosedAtStart                                       // no active subscription, or no event, when its turn came

  /** The row's subscription is inactive or missing, or its event is. */
  predicate Orphan(s: Hooks, id: nat) {
    id < |s.dels| && (s.dels[id].sub >= |s.subs| || !s.subs[s.dels[id].sub].active || s.dels[id].event >= |s.events|)
  }

  /** The step ends a request of the row and records how. */
  ghost predicate Ends(s: Hooks, a: Act, id: nat) {
    Enabled(s, a) && a.Settle? && s.flights[a.k].id == id
  }

  /** The step gives the row its turn and finds nobody to send to. */
  ghost predicate ClosesAtStart(s: Hooks, a: Act, id: nat) {
    Enabled(s, a) && a.StartTick? && id in a.batch && id !in a.bad && Orphan(s, id)
  }

  ghost function Last(acts: seq<Act>, id: nat): Verdict {
    if acts == [] then Untouched else
      var init, a := acts[..|acts| - 1], acts[|acts| - 1];
      var s := Exec(Empty, init);
      if Ends(s, a, id) then Recorded(a.outcome, s.flights[a.k].attempt, a.now)
      else if ClosesAtStart(s, a, id) then ClosedAtStart
      else Last(init, id)
  }

  /** When the fan-out that inserted the row ran. */
  ghost function Born(acts: seq<Act>, id: nat): nat {
    if acts == [] then 0 else
      var init, a := acts[..|acts| - 1], acts[|acts| - 1];
      if id >= |Exec(Empty, init).dels| && (a.Fanout? || a.FanoutStops?) then a.now else Born(init, id)
  }

  /** The requests of the row whose outcome was recorded. */
  ghost function Recordings(acts: seq<Act>, id: nat): nat {
    if acts == [] then 0 else
      var init, a := acts[..|acts| - 1], acts[|acts| - 1];
      Recordings(init, id) + if Ends(Exec(Empty, init), a, id) then 1 else 0
  }

  // ---- one step ----

  /** Starting a batch fails the orphans in it and leaves every other row as it is. */
  lemma {:induction false} StartExactly(s: Hooks, batch: seq<nat>, id: nat)
    requires forall a :: 0 <= a < |batch| ==> batch[a] < |s.dels|
    requires id < |s.dels|
    ensures StartAll(s, batch).dels[id] == if id in batch && Orphan(s, id) then s.dels[id].(status := Failed) else s.dels[id]
  {
    if batch != [] {
      var init, last := batch[..|batch| - 1], batch[|batch| - 1];
      assert batch == init + [last];
      StartExactly(s, init, id);
      StartExactly(s, init, last);
    }
  }

  lemma TickExactly(s: Hooks, a: Act, id: nat)
    requires a.StartTick? && Enabled(s, a) && id < |s.dels|
    ensures id < |Apply(s, a).dels|
    ensures Apply(s, a).dels[id] == if ClosesAtStart(s, a, id) then s.dels[id].(status := Failed) else s.dels[id]
  {
    BatchPending(s, a.batch, a.now);
    WithoutMembers(a.batch, a.bad);
    StartExactly(s, Without(a.batch, a.bad), id);
  }

  /** What the history says of the row is what the row says. */
  ghost predicate Told(v: Verdict, d: Delivery, born: nat) {
    match v
    case Untouched => d.status.Pending? && d.attempts == 0 && d.next == born
    case ClosedAtStart => d.status.Failed?
    case Recorded(outcome, attempt, at) =>
      && d.attempts == attempt
      && (d.status.Delivered? <==> outcome.Accepted?)
      && (d.status.Failed? <==> outcome.Refused? || (outcome.Trouble? && attempt >= 3))
      && (d.status.Pending? ==> d.next == at + (if attempt == 1 then 30_000 else 60_000))
  }

  ghost predicate AllTold(acts: seq<Act>) {
    && AttemptsOk(Exec(Empty, acts))
    && (forall id: nat :: id < |Exec(Empty, acts).dels| ==> Told(Last(acts, id), Exec(Empty, acts).dels[id], Born(acts, id)))
    && (forall id: nat :: id >= |Exec(Empty, acts).dels| ==> Last(acts, id) == Untouched)
  }

  lemma RecordedTold(s: Hooks, a: Act)
    requires AttemptsOk(s) && a.Settle? && Enabled(s, a)
    ensures var f := s.flights[a.k];
            && f.id < |Apply(s, a).dels|
            && forall born :: Told(Recorded(a.outcome, f.attempt, a.now), Apply(s, a).dels[f.id], born)
  {
    assert Pow2(0) == 1 && Pow2(1) == 2 * Pow2(0);
  }

  /** No step but these two touches a row already there. */
  lemma RowStays(s: Hooks, a: Act, id: nat)
    requires AttemptsOk(s) && id < |s.dels| && !Ends(s, a, id) && !ClosesAtStart(s, a, id)
    ensures id < |Apply(s, a).dels| && Apply(s, a).dels[id] == s.dels[id]
  {
    if a.StartTick? {
      if Enabled(s, a) { TickExactly(s, a, id); }
    } else if !a.Settle? {
      OtherStepsFresh(s, a);
    }
  }

  /** A row that appears is untouched, and due from the fan-out on. */
  lemma RowAppears(s: Hooks, a: Act, id: nat)
    requires AttemptsOk(s) && |s.dels| <= id < |Apply(s, a).dels|
    ensures (a.Fanout? || a.FanoutStops?) && Told(Untouched, Apply(s, a).dels[id], a.now)
    ensures !Ends(s, a, id) && !ClosesAtStart(s, a, id)
  {
    if a.StartTick? {
      StartKeepsLength(s, a);
    } else if !a.Settle? {
      OtherStepsFresh(s, a);
    }
  }

  lemma StartKeepsLength(s: Hooks, a: Act)
    requires a.StartTick?
    ensures |Apply(s, a).dels| == |s.dels|
  {
    if Enabled(s, a) {
      BatchPending(s, a.batch, a.now);
      WithoutMembers(a.batch, a.bad);
    }
  }

  lemma StepTold(acts: seq<Act>, id: nat)
    requires acts != [] && AllTold(acts[..|acts| - 1]) && id < |Exec(Empty, acts).dels|
    ensures Told(Last(acts, id), Exec(Empty, acts).dels[id], Born(acts, id))
  {
    var init, a := acts[..|acts| - 1], acts[|acts| - 1];
    var s := Exec(Empty, init);
    if id >= |s.dels| {
      RowAppears(s, a, id);
    } else {
      assert Told(Last(init, id), s.dels[id], Born(init, id));
      if Ends(s, a, id) {
        RecordedTold(s, a);
      } else if ClosesAtStart(s, a, id) {
        TickExactly(s, a, id);
      } else {
        RowStays(s, a, id);
      }
    }
  }

  lemma {:induction false} AlwaysTold(acts: seq<Act>)
    ensures AllTold(acts)
  {
    if acts != [] {
      var init, a := acts[..|acts| - 1], acts[|acts| - 1];
      AlwaysTold(init);
      AlwaysAttemptsOk(acts);
      forall id: nat | id < |Exec(Empty, acts).dels|
        ensures Told(Last(acts, id), Exec(Empty, acts).dels[id], Born(acts, id))
      {
        StepTold(acts, id);
      }
      forall id: nat | id >= |Exec(Empty, acts).dels| ensures Last(acts, id) == Untouched {
        RowsOnlyGrow(Exec(Empty, init), a);
      }
    }
  }

  lemma RowsOnlyGrow(s: Hooks, a: Act)
    ensures |s.dels| <= |Apply(s, a).dels|
  {
    if a.StartTick? {
      StartKeepsLength(s, a);
    } else if !a.Settle? {
      OtherStepsFresh(s, a);
    }
  }

  // ---- what every run shows ----

  /** Over every run, overlapping ticks, failures and deaths included, a row is delivered iff the last outcome recorded for it
      was a 2xx; failed iff it was a 4xx, or the third attempt in trouble, or its turn came without an active
      subscription or an event; and pending iff nothing happened to it yet or the last outcome was trouble on attempt
      1 or 2. So a 4xx never requeues it. */
  lemma StatusIff(acts: seq<Act>, id: nat)
    requires id < |Exec(Empty, acts).dels|
    ensures var d, v := Exec(Empty, acts).dels[id], Last(acts, id);
            && (d.status.Delivered? <==> v.Recorded? && v.outcome.Accepted?)
            && (d.status.Failed? <==> v.ClosedAtStart? || (v.Recorded? && (v.outcome.Refused? || (v.outcome.Trouble? && v.attempt >= 3))))
            && (d.status.Pending? <==> v.Untouched? || (v.Recorded? && v.outcome.Trouble? && v.attempt < 3))
            && (v.Recorded? ==> d.attempts == v.attempt)
  {
    AlwaysTold(acts);
    assert Told(Last(acts, id), Exec(Empty, acts).dels[id], Born(acts, id));
  }

  /** Over every run, a pending row is due when it was fanned out, or 30 s after its first failed attempt, or 60 s after
      its second. */
  lemma DueIff(acts: seq<Act>, id: nat)
    requires id < |Exec(Empty, acts).dels| && Exec(Empty, acts).dels[id].status.Pending?
    ensures var d, v := Exec(Empty, acts).dels[id], Last(acts, id);
            && (v.Untouched? ==> d.next == Born(acts, id) && d.attempts == 0)
            && (v.Recorded? && v.attempt == 1 ==> d.next == v.at + 30_000)
            && (v.Recorded? && v.attempt != 1 ==> v.attempt == 2 && d.next == v.at + 60_000)
  {
    StatusIff(acts, id);
    AlwaysTold(acts);
    assert Told(Last(acts, id), Exec(Empty, acts).dels[id], Born(acts, id));
    assert RowOk(Exec(Empty, acts), id);
    if Last(acts, id).Recorded? { RecordedAttempt(acts, id); }
  }

  lemma {:induction false} RecordedAttempt(acts: seq<Act>, id: nat)
    requires Last(acts, id).Recorded?
    ensures 1 <= Last(acts, id).attempt <= 3
  {
    var init := acts[..|acts| - 1];
    AlwaysAttemptsOk(init);
    if !Ends(Exec(Empty, init), acts[|acts| - 1], id) { RecordedAttempt(init, id); }
  }

  /** As long as no tick starts a row whose request is in flight, a row's attempts are the outcomes recorded for it, and a
      request in flight is the next one: a receiver in trouble is asked exactly three times. */
  lemma {:induction false} AttemptsAreRecordings(acts: seq<Act>, id: nat)
    requires CollisionFree(Empty, acts) && id < |Exec(Empty, acts).dels|
    ensures Exec(Empty, acts).dels[id].attempts == Recordings(acts, id)
  {
    var init, a := acts[..|acts| - 1], acts[|acts| - 1];
    var s := Exec(Empty, init);
    AlwaysAttemptsOk(init);
    FreeKeepsFlights(Empty, init);
    if id < |s.dels| {
      AttemptsAreRecordings(init, id);
      if Ends(s, a, id) {
        assert FlightOk(s, s.flights[a.k]);
      } else if ClosesAtStart(s, a, id) {
        TickExactly(s, a, id);
      } else {
        RowStays(s, a, id);
      }
    } else {
      RowAppears(s, a, id);
      NoneBefore(init, id);
    }
  }

  lemma {:induction false} NoneBefore(acts: seq<Act>, id: nat)
    requires id >= |Exec(Empty, acts).dels|
    ensures Recordings(acts, id) == 0
  {
    if acts != [] {
      var init, a := acts[..|acts| - 1], acts[|acts| - 1];
      AlwaysAttemptsOk(init);
      RowsOnlyGrow(Exec(Empty, init), a);
      NoneBefore(init, id);
    }
  }

  // ---- what a fan-out lists ----

  /** The events not marked yet among ids from..to. */
  function Unmarked(processed: set<nat>, from: nat, to: nat): set<nat> {
    set x | from <= x < to && x !in processed
  }

  lemma {:induction false} ListedIff(n: nat, processed: set<nat>, i: nat, limit: nat, x: nat)
    ensures x in PendingEvents(n, processed, i, limit) <==>
              i <= x < n && x !in processed && |Unmarked(processed, i, x)| < limit
    decreases n - i
  {
    if i >= n || limit == 0 {
    } else if i in processed {
      ListedIff(n, processed, i + 1, limit, x);
      assert Unmarked(processed, i, x) == Unmarked(processed, i + 1, x);
    } else {
      ListedIff(n, processed, i + 1, limit - 1, x);
      if x > i { assert Unmarked(processed, i, x) == {i} + Unmarked(processed, i + 1, x); }
      if x <= i { assert Unmarked(processed, i, x) == {}; }
    }
  }

  /** A whole fan-out marks exactly the unmarked events with fewer than 100 unmarked ones before them. */
  lemma FanoutMarks(s: Hooks, now: nat, x: nat)
    requires s.clock <= now && x !in s.processed
    ensures x in Apply(s, Fanout(now)).processed <==> x < |s.events| && |Unmarked(s.processed, 0, x)| < 100
  {
    ListedIff(|s.events|, s.processed, 0, 100, x);
  }

  /** A tick asks for at most 50 rows, all pending and due; a due row it leaves out finds 50 others due no later. */
  lemma BatchIsDue(s: Hooks, a: Act, id: nat)
    requires a.StartTick? && Enabled(s, a)
    ensures |a.batch| <= 50
    ensures id in a.batch ==> id < |s.dels| && s.dels[id].status.Pending? && s.dels[id].next <= a.now
    ensures id !in a.batch && id < |s.dels| && s.dels[id].status.Pending? && s.dels[id].next <= a.now ==>
              |a.batch| == 50 && forall i :: 0 <= i < |a.batch| ==> a.batch[i] < |s.dels| && s.dels[a.batch[i]].next <= s.dels[id].next
  {
    BatchPending(s, a.batch, a.now);
    if id !in a.batch && id < |s.dels| && s.dels[id].status.Pending? && s.dels[id].next <= a.now {
      assert IsDue(s.dels, id, a.now);
    }
  }

  // ---- what the tables were given ----

  /** The events inserted, in order. */
  function Inserted(acts: seq<Act>): seq<C.Event> {
    if acts == [] then [] else
      Inserted(acts[..|acts| - 1]) + if acts[|acts| - 1].Insert? then acts[|acts| - 1].rows else []
  }

  /** The subscriptions made, in order, with those left since inactive. */
  function Subscribed(acts: seq<Act>): seq<Sub> {
    if acts == [] then [] else
      var before, a := Subscribed(acts[..|acts| - 1]), acts[|acts| - 1];
      if a.Subscribe? then before + [a.sub]
      else if a.Unsubscribe? && a.id < |before| then
        before[a.id := Sub(before[a.id].wallet, before[a.id].all, before[a.id].names, false)]
      else before
  }

  lemma InputStep(s: Hooks, a: Act)
    ensures Apply(s, a).events == s.events + if a.Insert? then a.rows else []
    ensures Apply(s, a).subs == if a.Subscribe? then s.subs + [a.sub]
                                else if a.Unsubscribe? && a.id < |s.subs| then
                                  s.subs[a.id := Sub(s.subs[a.id].wallet, s.subs[a.id].all, s.subs[a.id].names, false)]
                                else s.subs
  {
    if a.StartTick? && Enabled(s, a) {
      BatchPending(s, a.batch, a.now);
      WithoutMembers(a.batch, a.bad);
    }
  }

  /** Over every run the events are those inserted, and the subscriptions those made, inactive once left. */
  lemma {:induction false} TablesAreInputs(acts: seq<Act>)
    ensures Exec(Empty, acts).events == Inserted(acts) && Exec(Empty, acts).subs == Subscribed(acts)
  {
    if acts != [] {
      TablesAreInputs(acts[..|acts| - 1]);
      InputStep(Exec(Empty, acts[..|acts| - 1]), acts[|acts| - 1]);
    }
  }

  /** A death drops every request in flight and no row; an outcome, recorded or not, ends one request. */
  lemma RequestsEnd(s: Hooks, a: Act)
    requires Enabled(s, a)
    ensures a.Restart? ==> Apply(s, a) == s.(flights := [])
    ensures a.FanoutStops? ==> Apply(s, a).flights == if a.dies then [] else s.flights
    ensures a.Settle? || a.SettleFails? ==> Apply(s, a).flights == s.flights[..a.k] + s.flights[a.k + 1..]
    ensures a.SettleFails? ==> Apply(s, a).dels == s.dels
  {
  }
}
