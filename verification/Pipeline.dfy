/** The whole pipeline of one deployment: blocks handled by the indexer, the emitter polling its tables, and the webhook
    worker in the emitter's process, in any interleaving. From on-chain event to delivery rows. */
module Pipeline {
  import opened Basics
  import opened StreamViews
  import I = Indexer
  import C = ChainEvents
  import W = Webhooks
  import M = Emissions
  import O = OnChain
  import E = EndToEnd
  import L = Ledger

  datatype Label =
    | Block(events: seq<I.Event>, number: nat)
    | Emit(step: C.Label)
    | Work(act: W.Act)

  /** What the step is to the indexer and the emitter: a death of the worker is a death of the process. */
  function OnChainLabels(l: Label): seq<O.Label> {
    match l
    case Block(es, b) => [O.Block(es, b)]
    case Emit(c) => [O.Emitter(c)]
    case Work(a) => if (a.FanoutStops? && a.dies) || a.Restart? then [O.Emitter(C.Crash(0, {}, 0))] else []
  }

  function OnChainPart(ls: seq<Label>): seq<O.Label> {
    if ls == [] then [] else OnChainPart(ls[..|ls| - 1]) + OnChainLabels(ls[|ls| - 1])
  }

  function AsChain(cs: seq<C.Label>): seq<E.Label> {
    seq(|cs|, i requires 0 <= i < |cs| => E.Chain(cs[i]))
  }

  /** What the step is to the emitter and the worker: a block is its `Index` steps. */
  ghost function WorldLabels(s: O.System, l: Label): seq<E.Label> {
    match l
    case Block(es, b) => AsChain(O.Steps(s, O.Block(es, b)))
    case Emit(c) => if c.Index? then [] else [E.Chain(c)]
    case Work(a) => [E.Hook(a)]
  }

  ghost function WorldPart(ls: seq<Label>): seq<E.Label> {
    if ls == [] then [] else
      WorldPart(ls[..|ls| - 1]) + WorldLabels(O.Exec(OnChainPart(ls[..|ls| - 1])), ls[|ls| - 1])
  }

  // ---- both views are of one emitter ----

  lemma {:induction false} ChainPartAppend(a: seq<E.Label>, b: seq<E.Label>)
    ensures E.ChainPart(a + b) == E.ChainPart(a) + E.ChainPart(b)
  {
    if b == [] {
      assert a + b == a;
    } else {
      var init, l := b[..|b| - 1], b[|b| - 1];
      assert b == init + [l] && a + b == (a + init) + [l];
      ChainPartAppend(a, init);
      ChainPartLast(init, l);
      ChainPartLast(a + init, l);
    }
  }

  lemma ChainPartLast(a: seq<E.Label>, l: E.Label)
    ensures E.ChainPart(a + [l]) == E.ChainPart(a) + E.ChainLabels(l)
  {
    assert (a + [l])[..|a|] == a;
  }

  lemma {:induction false} ChainPartOfChain(cs: seq<C.Label>)
    ensures E.ChainPart(AsChain(cs)) == cs
  {
    if cs != [] {
      var init, c := cs[..|cs| - 1], cs[|cs| - 1];
      ChainPartOfChain(init);
      assert AsChain(cs)[..|cs| - 1] == AsChain(init);
      assert cs == init + [c];
    }
  }

  lemma ChainPartOne(l: E.Label)
    ensures E.ChainPart([l]) == E.ChainLabels(l)
  {
    assert [l][..0] == [];
  }

  lemma EmitterPartOne(a: seq<O.Label>, l: O.Label)
    ensures O.EmitterPart(a + [l]) == O.EmitterPart(a) + O.Steps(O.Exec(a), l)
  {
    assert (a + [l])[..|a|] == a;
  }

  lemma StepParts(a: seq<O.Label>, l: Label)
    ensures O.EmitterPart(a + OnChainLabels(l)) == O.EmitterPart(a) + E.ChainPart(WorldLabels(O.Exec(a), l))
  {
    var s := O.Exec(a);
    match l
    case Block(es, b) =>
      EmitterPartOne(a, O.Block(es, b));
      ChainPartOfChain(O.Steps(s, O.Block(es, b)));
    case Emit(c) =>
      EmitterPartOne(a, O.Emitter(c));
      if !c.Index? { ChainPartOne(E.Chain(c)); }
    case Work(act) =>
      ChainPartOne(E.Hook(act));
      if OnChainLabels(l) != [] { EmitterPartOne(a, O.Emitter(C.Crash(0, {}, 0))); } else { assert a + [] == a; }
  }

  lemma {:induction false} OneEmitter(ls: seq<Label>)
    ensures E.ChainPart(WorldPart(ls)) == O.EmitterPart(OnChainPart(ls))
  {
    if ls != [] {
      var init, l := ls[..|ls| - 1], ls[|ls| - 1];
      OneEmitter(init);
      StepParts(OnChainPart(init), l);
      ChainPartAppend(WorldPart(init), WorldLabels(O.Exec(OnChainPart(init)), l));
    }
  }

  lemma SameEmitter(ls: seq<Label>)
    ensures E.Exec(WorldPart(ls)).chain == O.Exec(OnChainPart(ls)).emitter
  {
    OneEmitter(ls);
    E.Projections(WorldPart(ls));
    O.Projection(OnChainPart(ls));
  }

  lemma {:induction false} OnChainPrefix(ls: seq<Label>, k: nat)
    requires k < |ls| && ls[k].Block?
    ensures var a, n := OnChainPart(ls), |OnChainPart(ls[..k])|;
            n < |a| && a[..n] == OnChainPart(ls[..k]) && a[n] == O.Block(ls[k].events, ls[k].number)
  {
    var init := ls[..|ls| - 1];
    if k == |init| {
      assert ls[..k] == init;
    } else {
      OnChainPrefix(init, k);
      assert init[..k] == ls[..k];
    }
  }

  // ---- from the chain to the delivery rows ----

  /** The row event i of the block handled at step k stands for, if the emitter reports it. */
  ghost function Reported(ls: seq<Label>, k: nat, i: nat): (r: Option<(C.Stream, C.Row)>)
    requires k < |ls| && ls[k].Block? && i < |ls[k].events|
  {
    RowFor(I.Fold(O.Exec(OnChainPart(ls[..k])).db, ls[k].events[..i]), ls[k].events[i])
  }

  /** The block is handled: it comes next, and its events are plausible. */
  ghost predicate Handled(ls: seq<Label>, k: nat) {
    k < |ls| && ls[k].Block? && O.Enabled(O.Exec(OnChainPart(ls[..k])), O.Block(ls[k].events, ls[k].number))
  }

  /** The event has passed the emitter: its row names a wallet and its block lies above the stream's first cursor and at
      or below the highest head worked off, or a death left it behind. */
  ghost predicate Passed(s: C.State, st: C.Stream, row: C.Row, block: nat) {
    && row.wallet != "" && st in s.start && s.start[st] < block
    && (block <= C.High(s, st) || C.Event(st, row) in s.torn)
  }

  /** From the chain to the delivery rows, exactly once: on every undisturbed run, a reported on-chain event that has
      passed the emitter, its insert not having thrown, is exactly one row of webhook_events, with exactly one
      delivery per subscription active and matching at its fan-out; one that has not passed has no row. */
  lemma ChainToDeliveries(ls: seq<Label>, k: nat, i: nat) returns (n: nat)
    requires Handled(ls, k) && i < |ls[k].events| && Reported(ls, k, i).Some?
    requires E.Undisturbed(WorldPart(ls))
    ensures var (st, row) := Reported(ls, k, i).value;
            var w, e := E.Exec(WorldPart(ls)), C.Event(st, row);
            && (Passed(w.chain, st, row, ls[k].number) && e !in w.chain.lost ==>
                  && n < |w.hooks.events| && w.hooks.events[n] == e
                  && (forall m :: 0 <= m < |w.hooks.events| && m != n ==> w.hooks.events[m] != e)
                  && E.DeliveredOnce(w.hooks, n)
                  && (n in w.hooks.processed ==>
                        n in w.hooks.matched && exists j :: E.FannedAt(E.HookPart(WorldPart(ls)), j, n, e, w.hooks.matched[n])))
            && (!Passed(w.chain, st, row, ls[k].number) ==> e !in w.hooks.events)
  {
    var (st, row) := Reported(ls, k, i).value;
    HandedIsPassed(ls, k, i);
    n := E.ExactlyOnceEndToEnd(WorldPart(ls), C.Event(st, row));
  }

  /** ... and lost never: over every run at all, a reported event that has passed the emitter has an event row or its
      insert threw. */
  lemma ChainToEvents(ls: seq<Label>, k: nat, i: nat)
    requires Handled(ls, k) && i < |ls[k].events| && Reported(ls, k, i).Some?
    ensures var (st, row) := Reported(ls, k, i).value;
            var w, e := E.Exec(WorldPart(ls)), C.Event(st, row);
            Passed(w.chain, st, row, ls[k].number) <==> e in w.hooks.events || e in w.chain.lost
  {
    var (st, row) := Reported(ls, k, i).value;
    HandedIsPassed(ls, k, i);
    E.NothingLostEndToEnd(WorldPart(ls), C.Event(st, row), 0, 0);
  }

  lemma HandedIsPassed(ls: seq<Label>, k: nat, i: nat)
    requires Handled(ls, k) && i < |ls[k].events| && Reported(ls, k, i).Some?
    ensures var (st, row) := Reported(ls, k, i).value;
            var s := E.Exec(WorldPart(ls)).chain;
            M.Handed(s, C.Event(st, row)) <==> Passed(s, st, row, ls[k].number)
  {
    OnChainPrefix(ls, k);
    O.OnChainEventOnce(OnChainPart(ls), |OnChainPart(ls[..k])|, i);
    SameEmitter(ls);
  }

  /** The log up to and including event i of the block handled at step k. */
  ghost function LogTo(ls: seq<Label>, k: nat, i: nat): seq<I.Event>
    requires k < |ls| && ls[k].Block? && i <= |ls[k].events|
  {
    O.History(OnChainPart(ls[..k])) + ls[k].events[..i]
  }

  lemma ReportedByLog(ls: seq<Label>, k: nat, i: nat)
    requires k < |ls| && ls[k].Block? && i < |ls[k].events|
    ensures Reported(ls, k, i) == RowFor(I.Fold(I.Empty, LogTo(ls, k, i)), ls[k].events[i])
  {
    O.MetTables(OnChainPart(ls[..k]), ls[k].events[..i]);
  }

  lemma LogToNext(ls: seq<Label>, k: nat, i: nat)
    requires k < |ls| && ls[k].Block? && i < |ls[k].events|
    ensures LogTo(ls, k, i + 1) == LogTo(ls, k, i) + [ls[k].events[i]]
  {
    assert ls[k].events[..i + 1] == ls[k].events[..i] + [ls[k].events[i]];
  }

  /** Which events that is: when logs have chain positions of their own, every bond log, every trigger and fill of a
      policy or listing purchased or listed before, and the first purchase or listing of each key. */
  lemma NewsIsReported(ls: seq<Label>, k: nat, i: nat)
    requires k < |ls| && ls[k].Block? && i < |ls[k].events| && L.DistinctLogs(LogTo(ls, k, i + 1))
    ensures Reported(ls, k, i).Some? <==> O.IsNews(LogTo(ls, k, i), ls[k].events[i])
  {
    var log, e := LogTo(ls, k, i), ls[k].events[i];
    ReportedByLog(ls, k, i);
    LogToNext(ls, k, i);
    O.ReportedIff(log, e);
  }
}
