/** How many rows of webhook_deliveries an event gets per subscription, and exactly when a pair gets a second one:
    over every run, with throws and deaths in the middle of a fan-out. */
module DeliveryRows {
  import opened Webhooks
  import C = ChainEvents

  // ---- what one step writes ----

  /** The events a fan-out lists. */
  function Listed(s: Hooks): seq<nat> {
    PendingEvents(|s.events|, s.processed, 0, FANOUT_LIMIT)
  }

  /** A whole fan-out of the events `ids` writes a row for the pair. */
  predicate WritesWhole(s: Hooks, ids: seq<nat>, i: nat, j: nat) {
    i in ids && i < |s.events| && j in Matching(s.subs, s.events[i])
  }

  /** The stop leaves a row for the pair although it does not mark the event. */
  ghost predicate Leaves(s: Hooks, a: Act, i: nat, j: nat) {
    Enabled(s, a) && a.FanoutStops? && i == Listed(s)[a.k] && j in Matching(s.subs, s.events[i])[..a.m]
  }

  /** The step writes a row for event i and subscription j. */
  ghost predicate Writes(s: Hooks, a: Act, i: nat, j: nat) {
    || (Enabled(s, a) && a.Fanout? && WritesWhole(s, Listed(s), i, j))
    || (Enabled(s, a) && a.FanoutStops? && WritesWhole(s, Listed(s)[..a.k], i, j))
    || Leaves(s, a, i, j)
  }

  lemma {:induction false} WholeCounts(s: Hooks, ids: seq<nat>, now: nat, i: nat, j: nat)
    requires Distinct(ids) && forall k :: 0 <= k < |ids| ==> ids[k] < |s.events|
    ensures Count(FanoutAll(s, ids, now).dels, i, j) == Count(s.dels, i, j) + if WritesWhole(s, ids, i, j) then 1 else 0
  {
    if ids != [] {
      var init, id := ids[..|ids| - 1], ids[|ids| - 1];
      assert ids == init + [id] && id !in init;
      WholeCounts(s, init, now, i, j);
      var js := Matching(s.subs, s.events[id]);
      CountAppend(FanoutAll(s, init, now).dels, DeliveriesFor(id, js, now), i, j);
      CountFresh(id, js, now, i, j);
    }
  }

  lemma StopCounts(s: Hooks, a: Act, i: nat, j: nat)
    requires Enabled(s, a) && a.FanoutStops?
    ensures Count(Apply(s, a).dels, i, j) == Count(s.dels, i, j) + if Writes(s, a, i, j) then 1 else 0
    ensures Leaves(s, a, i, j) ==> i !in Listed(s)[..a.k]
  {
    var ids := Listed(s);
    var id := ids[a.k];
    var js := Matching(s.subs, s.events[id])[..a.m];
    WholeCounts(s, ids[..a.k], a.now, i, j);
    CountAppend(FanoutAll(s, ids[..a.k], a.now).dels, DeliveriesFor(id, js, a.now), i, j);
    CountFresh(id, js, a.now, i, j);
    assert id !in ids[..a.k];
  }

  /** Each step writes at most one row per pair. */
  lemma StepCounts(s: Hooks, a: Act, i: nat, j: nat)
    ensures Count(Apply(s, a).dels, i, j) == Count(s.dels, i, j) + if Writes(s, a, i, j) then 1 else 0
  {
    if Enabled(s, a) {
      if a.Fanout? {
        WholeCounts(s, Listed(s), a.now, i, j);
      } else if a.FanoutStops? {
        StopCounts(s, a, i, j);
      } else {
        OtherOwners(s, a);
      }
    }
  }

  ghost function WriteCount(acts: seq<Act>, i: nat, j: nat): nat {
    if acts == [] then 0 else
      var init := acts[..|acts| - 1];
      WriteCount(init, i, j) + if Writes(Exec(Empty, init), acts[|acts| - 1], i, j) then 1 else 0
  }

  /** Over every run a pair has as many rows as fan-outs wrote it. */
  lemma {:induction false} RowsAreWrites(acts: seq<Act>, i: nat, j: nat)
    ensures Count(Exec(Empty, acts).dels, i, j) == WriteCount(acts, i, j)
  {
    if acts == [] {
      assert Owners(Empty.dels) == [];
    } else {
      RowsAreWrites(acts[..|acts| - 1], i, j);
      StepCounts(Exec(Empty, acts[..|acts| - 1]), acts[|acts| - 1], i, j);
    }
  }

  // ---- what stops leave behind ----

  /** An earlier stop left a row for the pair although it did not mark the event. */
  ghost predicate LeftBehind(acts: seq<Act>, i: nat, j: nat) {
    acts != [] &&
    (LeftBehind(acts[..|acts| - 1], i, j) || Leaves(Exec(Empty, acts[..|acts| - 1]), acts[|acts| - 1], i, j))
  }

  /** What a step marks: the events it fans out whole. */
  lemma StepMarks(s: Hooks, a: Act, i: nat, j: nat)
    ensures i !in Apply(s, a).processed ==> i !in s.processed && (Writes(s, a, i, j) ==> Leaves(s, a, i, j))
  {
    if Enabled(s, a) && !a.Fanout? && !a.FanoutStops? { OtherOwners(s, a); }
  }

  /** Only events not yet marked are written. */
  lemma WritesPending(s: Hooks, a: Act, i: nat, j: nat)
    requires Writes(s, a, i, j)
    ensures i !in s.processed
  {
    assert i in Listed(s);
  }

  /** Over every run: an event not yet marked has a row for a subscription iff a stop left it behind. */
  lemma {:induction false} PendingRowsAreLeft(acts: seq<Act>, i: nat, j: nat)
    requires i !in Exec(Empty, acts).processed
    ensures Count(Exec(Empty, acts).dels, i, j) >= 1 <==> LeftBehind(acts, i, j)
  {
    if acts == [] {
      assert Owners(Empty.dels) == [];
    } else {
      var init, a := acts[..|acts| - 1], acts[|acts| - 1];
      var s := Exec(Empty, init);
      StepMarks(s, a, i, j);
      PendingRowsAreLeft(init, i, j);
      StepCounts(s, a, i, j);
    }
  }

  // ---- when a pair gets a second row ----

  /** The guard: after the run, the step writes a pair an earlier stop left behind. */
  ghost predicate Rewrites(acts: seq<Act>, a: Act) {
    exists i: nat, j: nat :: Writes(Exec(Empty, acts), a, i, j) && LeftBehind(acts, i, j)
  }

  /** The step writes a row for a pair that has one. */
  ghost predicate SecondRow(s: Hooks, a: Act) {
    exists i: nat, j: nat :: Count(s.dels, i, j) >= 1 && Count(Apply(s, a).dels, i, j) > Count(s.dels, i, j)
  }

  /** Exactly when a step writes a second row for some pair, after any run: iff it writes a pair that a stop of the run
      left behind. */
  lemma SecondRowIff(acts: seq<Act>, a: Act)
    ensures SecondRow(Exec(Empty, acts), a) <==> Rewrites(acts, a)
  {
    var s := Exec(Empty, acts);
    if SecondRow(s, a) {
      var i: nat, j: nat :| Count(s.dels, i, j) >= 1 && Count(Apply(s, a).dels, i, j) > Count(s.dels, i, j);
      StepCounts(s, a, i, j);
      WritesPending(s, a, i, j);
      PendingRowsAreLeft(acts, i, j);
      assert Writes(s, a, i, j) && LeftBehind(acts, i, j);
    }
    if Rewrites(acts, a) {
      var i: nat, j: nat :| Writes(s, a, i, j) && LeftBehind(acts, i, j);
      StepCounts(s, a, i, j);
      WritesPending(s, a, i, j);
      PendingRowsAreLeft(acts, i, j);
      assert Count(s.dels, i, j) >= 1 && Count(Apply(s, a).dels, i, j) > Count(s.dels, i, j);
    }
  }

  ghost predicate AtMostOneRow(s: Hooks) {
    forall i: nat, j: nat :: Count(s.dels, i, j) <= 1
  }

  ghost predicate NoRewrite(acts: seq<Act>) {
    acts == [] || (NoRewrite(acts[..|acts| - 1]) && !Rewrites(acts[..|acts| - 1], acts[|acts| - 1]))
  }

  lemma OneRowStep(s: Hooks, a: Act)
    ensures AtMostOneRow(Apply(s, a)) <==> AtMostOneRow(s) && !SecondRow(s, a)
  {
    forall i: nat, j: nat ensures Count(s.dels, i, j) <= Count(Apply(s, a).dels, i, j) <= Count(s.dels, i, j) + 1 {
      StepCounts(s, a, i, j);
    }
    if !AtMostOneRow(Apply(s, a)) && AtMostOneRow(s) {
      var i: nat, j: nat :| Count(Apply(s, a).dels, i, j) > 1;
      assert Count(s.dels, i, j) >= 1 && Count(Apply(s, a).dels, i, j) > Count(s.dels, i, j);
    }
  }

  /** Exactly when no delivery row is ever written twice: over every run each event has at most one row per
      subscription iff no fan-out, whole or cut short, wrote a pair that an earlier stop had left behind. */
  lemma {:induction false} AtMostOneRowIff(acts: seq<Act>)
    ensures AtMostOneRow(Exec(Empty, acts)) <==> NoRewrite(acts)
  {
    if acts == [] {
      assert Owners(Empty.dels) == [];
      assert forall i: nat, j: nat :: Count(Empty.dels, i, j) == 0;
    } else {
      var init, a := acts[..|acts| - 1], acts[|acts| - 1];
      AtMostOneRowIff(init);
      OneRowStep(Exec(Empty, init), a);
      SecondRowIff(init, a);
    }
  }

  /** A run whose stops never leave a row behind writes none twice. */
  lemma {:induction false} CleanStopsWriteOnce(acts: seq<Act>)
    requires NoDirtyStop(acts)
    ensures NoRewrite(acts) && forall i: nat, j: nat :: !LeftBehind(acts, i, j)
  {
    if acts != [] {
      CleanStopsWriteOnce(acts[..|acts| - 1]);
    }
  }

  // ---- a stop need not lead to a second row ----

  /** The event whose fan-out stopped after its first row loses its only subscriber before it is fanned out again: the row left
      behind stays the only one, although `FannedOutOnce` fails, the event having matched nobody in the end. */
  lemma StopWithoutSecondRow() returns (acts: seq<Act>)
    ensures !FannedOutOnce(Exec(Empty, acts)) && AtMostOneRow(Exec(Empty, acts)) && 0 in Exec(Empty, acts).processed
  {
    var stopped := StoppedRun();
    var dropped := stopped + [Unsubscribe(0)];
    acts := dropped + [Fanout(0)];
    Snoc(stopped, Unsubscribe(0));
    Snoc(dropped, Fanout(0));
    DroppedSub(Exec(Empty, stopped));
    NothingRewritten(stopped, Unsubscribe(0));
    NothingRewritten(dropped, Fanout(0));
    AtMostOneRowIff(acts);
    FanoutExactlyOnceIff(acts);
  }

  /** A state with one event still pending and one subscription. */
  ghost predicate OneOfEach(s: Hooks) {
    |s.subs| == 1 && |s.events| == 1 && s.processed == {} && s.clock == 0
  }

  lemma StoppedRun() returns (acts: seq<Act>)
    ensures !NoDirtyStop(acts) && NoRewrite(acts) && OneOfEach(Exec(Empty, acts))
  {
    var e, sub := C.Event(C.BondMinted, C.Row("k", 7, "0xab")), Sub("0xab", true, {}, true);
    var subscribed, stop := [Insert([e])] + [Subscribe(sub)], FanoutStops(0, 0, 1, false);
    acts := subscribed + [stop];
    TwoActs(Insert([e]), Subscribe(sub));
    Snoc(subscribed, stop);
    CleanStopsWriteOnce(subscribed);
    FirstStop(Exec(Empty, subscribed), e, sub);
  }

  lemma NothingRewritten(acts: seq<Act>, a: Act)
    requires forall i: nat, j: nat :: !Writes(Exec(Empty, acts), a, i, j)
    ensures !Rewrites(acts, a)
  {
  }

  lemma TwoActs(a: Act, b: Act)
    requires !a.FanoutStops? && !b.FanoutStops?
    ensures NoDirtyStop([a] + [b]) && Exec(Empty, [a] + [b]) == Apply(Apply(Empty, a), b)
  {
    ExecOne(Empty, a);
    assert ([a] + [b])[..1] == [a] && [a][..0] == [];
    assert NoDirtyStop([a]);
  }

  lemma Snoc(acts: seq<Act>, a: Act)
    ensures Exec(Empty, acts + [a]) == Apply(Exec(Empty, acts), a)
    ensures NoDirtyStop(acts + [a]) <==> NoDirtyStop(acts) && !DirtyStop(Exec(Empty, acts), a)
    ensures NoRewrite(acts + [a]) <==> NoRewrite(acts) && !Rewrites(acts, a)
  {
    assert (acts + [a])[..|acts|] == acts;
  }

  lemma FirstListed(s: Hooks)
    requires |s.events| == 1 && s.processed == {}
    ensures Listed(s) == [0]
  {
    assert PendingEvents(1, {}, 1, 99) == [];
    assert PendingEvents(1, {}, 0, 100) == [0] + PendingEvents(1, {}, 1, 99);
  }

  lemma OneMatch(e: C.Event, sub: Sub)
    requires Wants(sub, e)
    ensures Matching([sub], e) == [0]
  {
    assert [sub][..0] == [];
  }

  lemma FirstStop(s: Hooks, e: C.Event, sub: Sub)
    requires s == Hooks([e], {}, [sub], [], [], 0, map[], map[]) && Wants(sub, e)
    ensures DirtyStop(s, FanoutStops(0, 0, 1, false)) && OneOfEach(Apply(s, FanoutStops(0, 0, 1, false)))
  {
    FirstListed(s);
    OneMatch(e, sub);
    assert [0][..0] == [];
  }

  lemma DroppedSub(s: Hooks)
    requires OneOfEach(s)
    ensures var s' := Apply(s, Unsubscribe(0));
            && (forall i: nat, j: nat :: !Writes(s, Unsubscribe(0), i, j) && !Writes(s', Fanout(0), i, j))
            && 0 in Apply(s', Fanout(0)).processed
  {
    FirstListed(Apply(s, Unsubscribe(0)));
  }
}
