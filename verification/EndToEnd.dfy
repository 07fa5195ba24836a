/** The emitter and the webhook worker running in one process over one database, interleaved step by step
    with each other, with the indexer and with subscribers. */
module EndToEnd {
  import C = ChainEvents
  import W = Webhooks
  import M = Emissions
  import D = DeliveryRows

  datatype World = World(chain: C.State, hooks: W.Hooks)

  datatype Label =
    | Chain(step: C.Label)
    | Hook(act: W.Act)

  const Initial := World(C.Initial, W.Empty)

  /** A death of the process stops both halves; the emitter's inserts appear in the worker's table. */
  function ChainLabels(l: Label): seq<C.Label> {
    match l
    case Chain(c) => [c]
    case Hook(a) => if (a.FanoutStops? && a.dies) || a.Restart? then [C.Crash(0, {}, 0)] else []
  }

  function NewEvents(c: C.State, c': C.State): seq<C.Event> {
    if |c.events| <= |c'.events| then c'.events[|c.events|..] else []
  }

  function HookActs(w: World, l: Label): seq<W.Act> {
    match l
    case Chain(c) => [W.Insert(NewEvents(w.chain, C.Apply(w.chain, c)))] + (if c.Crash? then [W.Restart] else [])
    case Hook(a) => if a.Insert? then [] else [a]
  }

  ghost function Apply(w: World, l: Label): World {
    World(C.Exec(w.chain, ChainLabels(l)), W.Exec(w.hooks, HookActs(w, l)))
  }

  ghost function Exec(ls: seq<Label>): World {
    if ls == [] then Initial else Apply(Exec(ls[..|ls| - 1]), ls[|ls| - 1])
  }

  /** What the run looks like to the emitter, and to the worker. */
  function ChainPart(ls: seq<Label>): seq<C.Label> {
    if ls == [] then [] else ChainPart(ls[..|ls| - 1]) + ChainLabels(ls[|ls| - 1])
  }

  ghost function HookPart(ls: seq<Label>): seq<W.Act> {
    if ls == [] then [] else HookPart(ls[..|ls| - 1]) + HookActs(Exec(ls[..|ls| - 1]), ls[|ls| - 1])
  }

  lemma {:induction false} HooksExecAppend(s: W.Hooks, a: seq<W.Act>, b: seq<W.Act>)
    ensures W.Exec(s, a + b) == W.Exec(W.Exec(s, a), b)
  {
    if b == [] {
      assert a + b == a;
    } else {
      HooksExecAppend(s, a, b[..|b| - 1]);
      assert (a + b)[..|a + b| - 1] == a + b[..|b| - 1];
    }
  }

  /** Each half of the world runs exactly its own machine. */
  lemma {:induction false} Projections(ls: seq<Label>)
    ensures Exec(ls).chain == C.Exec(C.Initial, ChainPart(ls))
    ensures Exec(ls).hooks == W.Exec(W.Empty, HookPart(ls))
  {
    if ls != [] {
      var n := |ls| - 1;
      Projections(ls[..n]);
      C.ExecAppend(C.Initial, ChainPart(ls[..n]), ChainLabels(ls[n]));
      HooksExecAppend(W.Empty, HookPart(ls[..n]), HookActs(Exec(ls[..n]), ls[n]));
    }
  }

  lemma ChainAppends(s: C.State, l: C.Label)
    ensures s.events <= C.Apply(s, l).events
  {
    if C.Enabled(s, l) {
      match l
      case AfterFetch(_, _) =>
      case CursorFails(_, _) =>
      case Crash(_, _, _) =>
      case _ => M.QuietEvents(s, l);
    }
  }

  lemma HookKeepsEvents(s: W.Hooks, a: W.Act)
    ensures W.Apply(s, a).events == s.events + (if a.Insert? then a.rows else [])
  {
  }

  /** The rows the emitter inserts are, in order, the rows the worker fans out. */
  lemma {:induction false} SharedTable(ls: seq<Label>)
    ensures Exec(ls).hooks.events == Exec(ls).chain.events
  {
    if ls != [] {
      SharedTable(ls[..|ls| - 1]);
      SharedStep(Exec(ls[..|ls| - 1]), ls[|ls| - 1]);
    }
  }

  lemma SharedStep(w: World, l: Label)
    requires w.hooks.events == w.chain.events
    ensures Apply(w, l).hooks.events == Apply(w, l).chain.events
  {
    match l
    case Chain(c) => EmitterStep(w, c);
    case Hook(a) => WorkerStep(w, a);
  }

  lemma EmitterStep(w: World, c: C.Label)
    requires w.hooks.events == w.chain.events
    ensures Apply(w, Chain(c)).hooks.events == Apply(w, Chain(c)).chain.events
  {
    var ins := W.Insert(NewEvents(w.chain, C.Apply(w.chain, c)));
    C.ExecOne(w.chain, c);
    ChainAppends(w.chain, c);
    NewEventsAppend(w.chain, C.Apply(w.chain, c));
    HookKeepsEvents(w.hooks, ins);
    InsertThenDie(w.hooks, ins);
  }

  lemma NewEventsAppend(c: C.State, c': C.State)
    requires c.events <= c'.events
    ensures c.events + NewEvents(c, c') == c'.events
  {
  }

  lemma InsertThenDie(s: W.Hooks, ins: W.Act)
    ensures W.Exec(s, [ins] + [W.Restart]).events == W.Exec(s, [ins] + []).events == W.Apply(s, ins).events
  {
    W.ExecOne(s, ins);
    HooksExecAppend(s, [ins], [W.Restart]);
    W.ExecOne(W.Apply(s, ins), W.Restart);
    HookKeepsEvents(W.Apply(s, ins), W.Restart);
    assert [ins] + [] == [ins];
  }

  lemma WorkerStep(w: World, a: W.Act)
    requires w.hooks.events == w.chain.events
    ensures Apply(w, Hook(a)).hooks.events == Apply(w, Hook(a)).chain.events
  {
    C.ExecOne(w.chain, C.Crash(0, {}, 0));
    W.ExecOne(w.hooks, a);
    HookKeepsEvents(w.hooks, a);
  }

  lemma {:induction false} OnlyIndex(xs: seq<C.Event>, e: C.Event) returns (i: nat)
    requires multiset(xs)[e] == 1
    ensures i < |xs| && xs[i] == e && forall k :: 0 <= k < |xs| && k != i ==> xs[k] != e
  {
    var n := |xs| - 1;
    assert xs == xs[..n] + [xs[n]];
    if xs[n] == e {
      i := n;
      forall k | 0 <= k < n ensures xs[k] != e {
        assert xs[..n][k] in multiset(xs[..n]);
      }
    } else {
      i := OnlyIndex(xs[..n], e);
    }
  }

  /** Event i has one delivery per subscription it matched when it was fanned out, and no other. */
  ghost predicate DeliveredOnce(h: W.Hooks, i: nat) {
    forall j: nat :: W.Count(h.dels, i, j) == if i in h.processed && i in h.matched && j in h.matched[i] then 1 else 0
  }

  /** Step k of the worker's run fanned event e (row i) out to exactly the subscriptions js: those active
      and matching in the state the step started from. */
  ghost predicate FannedAt(acts: seq<W.Act>, k: nat, i: nat, e: C.Event, js: seq<nat>) {
    && k < |acts|
    && i !in W.Exec(W.Empty, acts[..k]).processed && i in W.Exec(W.Empty, acts[..k + 1]).processed
    && js == W.Matching(W.Exec(W.Empty, acts[..k]).subs, e)
  }

  lemma {:induction false} EventsGrow(acts: seq<W.Act>, k: nat)
    requires k <= |acts|
    ensures W.Exec(W.Empty, acts[..k]).events <= W.Exec(W.Empty, acts).events
  {
    var n := |acts| - 1;
    if k == |acts| {
      assert acts[..k] == acts;
    } else {
      EventsGrow(acts[..n], k);
      assert acts[..n][..k] == acts[..k];
      HookKeepsEvents(W.Exec(W.Empty, acts[..n]), acts[n]);
    }
  }

  lemma FannedOnce(acts: seq<W.Act>, i: nat) returns (k: nat)
    requires i in W.Exec(W.Empty, acts).processed
    ensures i < |W.Exec(W.Empty, acts).events| && i in W.Exec(W.Empty, acts).matched
    ensures FannedAt(acts, k, i, W.Exec(W.Empty, acts).events[i], W.Exec(W.Empty, acts).matched[i])
  {
    k := W.MatchedAtFanout(acts, i);
    EventsGrow(acts, k);
  }

  /** No step of the run hands a row to `emit` again, and none leaves a delivery of an event it does not mark. */
  ghost predicate Undisturbed(ls: seq<Label>) {
    M.NoRepeat(ChainPart(ls)) && W.NoDirtyStop(HookPart(ls))
  }

  /** End to end, exactly when: over every run, each row is handed to `emit` at most once and each event has exactly one
      delivery per subscription it matched, iff no emit loop met the guard of `Emissions.Repeats` and no fan-out
      stopped after a delivery of an event it did not mark. */
  lemma ExactlyOnceEndToEndIff(ls: seq<Label>)
    ensures M.AtMostOnce(Exec(ls).chain) && W.FannedOutOnce(Exec(ls).hooks) <==> Undisturbed(ls)
  {
    Projections(ls);
    M.ExactlyOnceIff(ChainPart(ls));
    W.FanoutExactlyOnceIff(HookPart(ls));
  }

  /** Never twice, exactly when: over every run, each row is handed to `emit` at most once and each event has at most one
      delivery row per subscription, iff no emit loop met the guard of `Emissions.Repeats` and no fan-out wrote a pair
      that an earlier stop had left behind. */
  lemma NeverTwiceEndToEndIff(ls: seq<Label>)
    ensures M.AtMostOnce(Exec(ls).chain) && D.AtMostOneRow(Exec(ls).hooks)
            <==> M.NoRepeat(ChainPart(ls)) && D.NoRewrite(HookPart(ls))
  {
    Projections(ls);
    M.ExactlyOnceIff(ChainPart(ls));
    D.AtMostOneRowIff(HookPart(ls));
  }

  /** What an undisturbed run means for one row: handed to `emit` by the stored cursor (or, after a failed cursor write, by the
      highest head worked off), its insert not having thrown, it is exactly one row of webhook_events, fanned out at
      most once, with exactly one delivery per subscription active and matching at that moment; a row not handed
      over has no event, so no delivery. */
  lemma ExactlyOnceEndToEnd(ls: seq<Label>, e: C.Event) returns (i: nat)
    requires Undisturbed(ls)
    ensures var w := Exec(ls);
            M.Handed(w.chain, e) && e !in w.chain.lost ==>
              && i < |w.hooks.events| && w.hooks.events[i] == e
              && (forall k :: 0 <= k < |w.hooks.events| && k != i ==> w.hooks.events[k] != e)
              && DeliveredOnce(w.hooks, i)
              && (i in w.hooks.processed ==>
                    i in w.hooks.matched && exists k :: FannedAt(HookPart(ls), k, i, e, w.hooks.matched[i]))
    ensures C.Due(Exec(ls).chain, e) ==> M.Handed(Exec(ls).chain, e)
    ensures !M.Handed(Exec(ls).chain, e) ==> e !in Exec(ls).hooks.events
  {
    var w := Exec(ls);
    Projections(ls);
    SharedTable(ls);
    M.ExactlyOnceIff(ChainPart(ls));
    W.FanoutExactlyOnceIff(HookPart(ls));
    assert C.Tries(w.chain, e) == if M.Handed(w.chain, e) then 1 else 0;
    i := 0;
    if M.Handed(w.chain, e) && e !in w.chain.lost {
      i := OnlyIndex(w.hooks.events, e);
      if i in w.hooks.processed {
        var k := FannedOnce(HookPart(ls), i);
      }
    }
  }

  /** Ticks that do not overlap, with no death or failed cursor write in an emit loop, never repeat a row. */
  lemma CalmIsUndisturbed(ls: seq<Label>)
    requires C.Calm(ChainPart(ls))
    ensures M.NoRepeat(ChainPart(ls))
  {
    M.ExactlyOnceIff(ChainPart(ls));
    forall e ensures C.Tries(C.Exec(C.Initial, ChainPart(ls)), e) <= 1 { C.ExactlyOnce(ChainPart(ls), e); }
  }

  /** End to end, over every run at all (overlapping ticks, failures and deaths anywhere): such a row has an event or
      its insert threw, and a processed event has at least one delivery per subscription it matched. */
  lemma NothingLostEndToEnd(ls: seq<Label>, e: C.Event, i: nat, j: nat)
    ensures var w := Exec(ls);
            && (M.Handed(w.chain, e) <==> e in w.hooks.events || e in w.chain.lost)
            && (C.Due(w.chain, e) ==> M.Handed(w.chain, e))
            && (i in w.hooks.processed && i in w.hooks.matched && j in w.hooks.matched[i] ==> W.Count(w.hooks.dels, i, j) >= 1)
  {
    Projections(ls);
    SharedTable(ls);
    M.HandedIff(ChainPart(ls), e);
    M.ExactlyOnceIff(ChainPart(ls));
    W.FanoutLosesNothing(HookPart(ls));
  }
}
