/** From the chain to webhook_events: the indexer handling whole blocks of contract events, interleaved with
    every step the emitter can take. */
module OnChain {
  import opened Basics
  import opened StreamViews
  import RowKeys
  import I = Indexer
  import C = ChainEvents
  import M = Emissions
  import L = Ledger

  datatype System = System(db: I.Db, top: nat, emitter: C.State)

  datatype Label =
    | Block(events: seq<I.Event>, number: nat)
    | Emitter(step: C.Label)

  const Initial := System(I.Empty, 0, C.Initial)

  const STREAMS: seq<C.Stream> :=
    [C.PolicyPurchased, C.PolicyTriggered, C.BondMinted, C.BondRedeemed, C.ListingCreated, C.ListingPurchased]

  /** Blocks come in order and are plausible; the emitter's picture of the tables changes only through them. */
  ghost predicate Enabled(s: System, l: Label) {
    match l
    case Block(es, b) => s.top < b && PlausibleBlock(s.db, es, b)
    case Emitter(c) => !c.Index?
  }

  /** The block as the first n streams see it. */
  function IndexSteps(db: I.Db, db': I.Db, b: nat, n: nat): seq<C.Label>
    requires n <= 6
  {
    if n == 0 then [] else
      IndexSteps(db, db', b, n - 1) + IndexStep(db, db', b, STREAMS[n - 1])
  }

  ghost function Steps(s: System, l: Label): seq<C.Label> {
    if !Enabled(s, l) then [] else
    match l
    case Block(es, b) => IndexSteps(s.db, I.Fold(s.db, es), b, 6)
    case Emitter(c) => [c]
  }

  ghost function Apply(s: System, l: Label): System {
    var s1 := s.(emitter := C.Exec(s.emitter, Steps(s, l)));
    if Enabled(s, l) && l.Block? then s1.(db := I.Fold(s.db, l.events), top := l.number) else s1
  }

  ghost function Exec(ls: seq<Label>): System {
    if ls == [] then Initial else Apply(Exec(ls[..|ls| - 1]), ls[|ls| - 1])
  }

  /** The run as the emitter's own machine sees it. */
  ghost function EmitterPart(ls: seq<Label>): seq<C.Label> {
    if ls == [] then [] else EmitterPart(ls[..|ls| - 1]) + Steps(Exec(ls[..|ls| - 1]), ls[|ls| - 1])
  }

  ghost predicate Synced(s: System) {
    TablesOk(s.db, s.top) && forall st :: Shows(s.emitter, st, s.db)
  }

  lemma {:induction false} Projection(ls: seq<Label>)
    ensures Exec(ls).emitter == C.Exec(C.Initial, EmitterPart(ls))
  {
    if ls != [] {
      var n := |ls| - 1;
      Projection(ls[..n]);
      C.ExecAppend(C.Initial, EmitterPart(ls[..n]), Steps(Exec(ls[..n]), ls[n]));
    }
  }

  /** One stream's `Index` step leaves the others' pictures alone. */
  lemma OtherStreams(s: C.State, st: C.Stream, rows: set<C.Row>, b: nat, u: C.Stream, db: I.Db)
    requires u != st && Shows(s, u, db)
    ensures Shows(C.Apply(s, C.Index(st, rows, b)), u, db)
  {
  }

  function IndexStep(db: I.Db, db': I.Db, b: nat, st: C.Stream): seq<C.Label> {
    if b in Blocks(db', st) then [C.Index(st, View(db', st) - View(db, st), b)] else []
  }

  /** The n-th stream's share of a block. */
  lemma OneStreamSynced(s: System, es: seq<I.Event>, b: nat, c: C.State, st: C.Stream)
    requires TablesOk(s.db, s.top) && Enabled(s, Block(es, b)) && Shows(c, st, s.db)
    ensures Shows(C.Exec(c, IndexStep(s.db, I.Fold(s.db, es), b, st)), st, I.Fold(s.db, es))
  {
    var db' := I.Fold(s.db, es);
    BlockIsIndexStep(c, s.db, es, s.top, b, st);
    C.ExecOne(c, C.Index(st, View(db', st) - View(s.db, st), b));
  }

  lemma OtherStreamSynced(c: C.State, db: I.Db, db': I.Db, b: nat, st: C.Stream, u: C.Stream, shown: I.Db)
    requires u != st && Shows(c, u, shown)
    ensures Shows(C.Exec(c, IndexStep(db, db', b, st)), u, shown)
  {
    var rows := View(db', st) - View(db, st);
    C.ExecOne(c, C.Index(st, rows, b));
    OtherStreams(c, st, rows, b, u, shown);
  }

  lemma {:induction false} BlockSynced(s: System, es: seq<I.Event>, b: nat, n: nat, m: nat)
    requires Synced(s) && Enabled(s, Block(es, b)) && n <= 6 && m < 6
    ensures var db' := I.Fold(s.db, es);
            Shows(C.Exec(s.emitter, IndexSteps(s.db, db', b, n)), STREAMS[m], if m < n then db' else s.db)
  {
    var db' := I.Fold(s.db, es);
    if n > 0 {
      var before, st := IndexSteps(s.db, db', b, n - 1), STREAMS[n - 1];
      var c := C.Exec(s.emitter, before);
      assert IndexSteps(s.db, db', b, n) == before + IndexStep(s.db, db', b, st);
      C.ExecAppend(s.emitter, before, IndexStep(s.db, db', b, st));
      BlockSynced(s, es, b, n - 1, m);
      if m == n - 1 {
        OneStreamSynced(s, es, b, c, st);
      } else {
        StreamsDistinct(m, n - 1);
        OtherStreamSynced(c, s.db, db', b, st, STREAMS[m], if m < n then db' else s.db);
      }
    }
  }

  lemma StreamsDistinct(m: nat, n: nat)
    requires m < 6 && n < 6 && m != n
    ensures STREAMS[m] != STREAMS[n]
  {
  }

  lemma EmitterKeepsView(s: C.State, l: C.Label)
    requires !l.Index?
    ensures C.Apply(s, l).view == s.view && C.Apply(s, l).top == s.top
  {
    if C.Enabled(s, l) {
      match l
      case ReadHead(_, _) =>
      case AfterHead(_) => HeadKeepsView(s, l.proc);
      case RunFetch(_, _) =>
      case AfterFetch(_, _) =>
      case CursorFails(_, _) =>
      case QueryFails(_) =>
      case Crash(_, _, _) =>
    }
  }

  lemma HeadKeepsView(s: C.State, p: nat)
    ensures C.Apply(s, C.AfterHead(p)).view == s.view && C.Apply(s, C.AfterHead(p)).top == s.top
  {
    if C.Enabled(s, C.AfterHead(p)) {
      var st, head := s.procs[p].stream, s.procs[p].head;
      var s' := C.Apply(s, C.AfterHead(p));
      if head <= 0 || (st in s.cursor && head <= s.cursor[st]) {
        assert s' == s.(procs := s.procs - {p});
      } else if st in s.cursor {
        assert s' == s.(procs := s.procs[p := C.Fetch(st, s.cursor[st], head)]);
      }
    }
  }

  lemma Index6(st: C.Stream) returns (m: nat)
    ensures m < 6 && STREAMS[m] == st
  {
    match st
    case PolicyPurchased => m := 0;
    case PolicyTriggered => m := 1;
    case BondMinted => m := 2;
    case BondRedeemed => m := 3;
    case ListingCreated => m := 4;
    case ListingPurchased => m := 5;
  }

  /** At every point of every run each stream's rows and MAX are those of the indexed tables. */
  lemma {:induction false} AlwaysSynced(ls: seq<Label>)
    ensures Synced(Exec(ls))
  {
    if ls == [] {
      forall st ensures Shows(C.Initial, st, I.Empty) {
        assert View(I.Empty, st) == {} && Blocks(I.Empty, st) == {};
      }
    } else {
      var s, l := Exec(ls[..|ls| - 1]), ls[|ls| - 1];
      AlwaysSynced(ls[..|ls| - 1]);
      StepSynced(s, l);
    }
  }

  lemma StepSynced(s: System, l: Label)
    requires Synced(s)
    ensures Synced(Apply(s, l))
  {
    if Enabled(s, l) {
      match l
      case Block(es, b) =>
        BlockExtends(s.db, es, s.top, b, C.BondMinted);
        Relax(I.Fold(s.db, es), if es == [] then s.top else b, b);
        forall st ensures Shows(Apply(s, l).emitter, st, I.Fold(s.db, es)) {
          var m := Index6(st);
          BlockSynced(s, es, b, 6, m);
        }
      case Emitter(c) =>
        C.ExecOne(s.emitter, c);
        EmitterKeepsView(s.emitter, c);
        forall st ensures Shows(Apply(s, l).emitter, st, s.db) { assert Shows(s.emitter, st, s.db); }
    } else {
      assert Apply(s, l) == s;
    }
  }

  /** A stream after the first k steps of a run. */
  ghost function ViewAfter(ls: seq<Label>, k: nat, st: C.Stream): set<C.Row>
    requires k <= |ls|
  {
    View(Exec(ls[..k]).db, st)
  }

  lemma ViewGrows(ls: seq<Label>, k: nat, st: C.Stream)
    requires k < |ls|
    ensures ViewAfter(ls, k, st) <= ViewAfter(ls, k + 1, st)
  {
    AlwaysSynced(ls[..k]);
    ViewStays(Exec(ls[..k]), ls[k], st);
    assert ls[..k + 1][..k] == ls[..k];
  }

  lemma RowsStay(ls: seq<Label>, k: nat, st: C.Stream)
    requires k <= |ls|
    ensures ViewAfter(ls, k, st) <= ViewAfter(ls, |ls|, st)
  {
    var views := seq(|ls| + 1, j requires 0 <= j <= |ls| => ViewAfter(ls, j, st));
    forall j | 0 <= j < |ls| ensures views[j] <= views[j + 1] { ViewGrows(ls, j, st); }
    Ascend(views, k, |ls|);
  }

  lemma ViewStays(s: System, l: Label, st: C.Stream)
    requires Synced(s)
    ensures View(s.db, st) <= View(Apply(s, l).db, st)
  {
    if Enabled(s, l) && l.Block? {
      BlockExtends(s.db, l.events, s.top, l.number, st);
    }
  }

  /** Every event of the block meets tables in order. */
  ghost predicate PrefixesOk(db: I.Db, es: seq<I.Event>, b: nat) {
    forall i: nat :: i < |es| ==> EventOk(I.Fold(db, es[..i]), es[i], b)
  }

  ghost predicate EventOk(db: I.Db, e: I.Event, b: nat) {
    TablesOk(db, b) && Plausible(db, e, b)
  }

  /** The row of event i of a block is in its stream from then on. */
  lemma EventIndexed(db: I.Db, es: seq<I.Event>, b: nat, i: nat, st: C.Stream, row: C.Row)
    requires PrefixesOk(db, es, b) && i < |es|
    requires RowFor(I.Fold(db, es[..i]), es[i]) == Some((st, row))
    ensures row in View(I.Fold(db, es), st) && row.block == b
  {
    assert EventOk(I.Fold(db, es[..i]), es[i], b);
    EventIsRow(I.Fold(db, es[..i]), es[i], b, st);
    RowForInBlock(I.Fold(db, es[..i]), es[i]);
    FoldPrefix(db, es, i);
    RowRemains(db, es, b, i + 1, |es|, st, row);
    assert es[..|es|] == es;
  }

  lemma FoldPrefix(db: I.Db, es: seq<I.Event>, i: nat)
    requires i < |es|
    ensures I.Fold(db, es[..i + 1]) == I.Apply(I.Fold(db, es[..i]), es[i])
  {
    assert es[..i + 1][..i] == es[..i];
  }

  lemma RowRemains(db: I.Db, es: seq<I.Event>, b: nat, i: nat, n: nat, st: C.Stream, row: C.Row)
    requires PrefixesOk(db, es, b) && i <= n <= |es|
    requires row in View(I.Fold(db, es[..i]), st)
    ensures row in View(I.Fold(db, es[..n]), st)
  {
    var views := seq(|es| + 1, j requires 0 <= j <= |es| => View(I.Fold(db, es[..j]), st));
    forall j | 0 <= j < |es| ensures views[j] <= views[j + 1] {
      assert EventOk(I.Fold(db, es[..j]), es[j], b);
      StepExtends(I.Fold(db, es[..j]), es[j], b, st);
      FoldPrefix(db, es, j);
    }
    Ascend(views, i, n);
  }

  lemma {:induction false} Ascend<T>(sets: seq<set<T>>, i: nat, n: nat)
    requires i <= n < |sets| && forall j :: 0 <= j < |sets| - 1 ==> sets[j] <= sets[j + 1]
    ensures sets[i] <= sets[n]
    decreases n
  {
    if i < n {
      Ascend(sets, i, n - 1);
      assert sets[n - 1] <= sets[n - 1 + 1];
    }
  }

  lemma PrefixOk(s: System, es: seq<I.Event>, b: nat, i: nat)
    requires Synced(s) && Enabled(s, Block(es, b)) && i < |es|
    ensures TablesOk(I.Fold(s.db, es[..i]), b) && Plausible(I.Fold(s.db, es[..i]), es[i], b) && es[i].m.block == b
  {
    forall j | 0 <= j < i ensures Plausible(I.Fold(s.db, es[..i][..j]), es[..i][j], b) { assert es[..i][..j] == es[..j]; }
    BlockExtends(s.db, es[..i], s.top, b, C.BondMinted);
    Relax(I.Fold(s.db, es[..i]), if es[..i] == [] then s.top else b, b);
  }

  /** On-chain event to `emit`: over every run, an event the emitter reports (`RowFor`) has been handed to `emit` iff
      its row names a wallet and its block is above its stream's first cursor and at or below the highest head
      worked off (or a death left it behind); and not twice, unless some step of the run met the guard of
      `Emissions.Repeats`. */
  lemma OnChainEventOnce(ls: seq<Label>, k: nat, i: nat)
    requires k < |ls| && ls[k].Block? && Enabled(Exec(ls[..k]), ls[k]) && i < |ls[k].events|
    requires RowFor(I.Fold(Exec(ls[..k]).db, ls[k].events[..i]), ls[k].events[i]).Some?
    ensures var (st, row) := RowFor(I.Fold(Exec(ls[..k]).db, ls[k].events[..i]), ls[k].events[i]).value;
            var s, e := Exec(ls).emitter, C.Event(st, row);
            && (C.Tries(s, e) >= 1 <==>
                  && row.wallet != "" && st in s.start && s.start[st] < ls[k].number
                  && (ls[k].number <= C.High(s, st) || e in s.torn))
            && (M.NoRepeat(EmitterPart(ls)) ==> C.Tries(s, e) <= 1)
            && (C.Tries(s, e) >= 1 <==> M.Handed(s, e))
  {
    var (st, row) := RowFor(I.Fold(Exec(ls[..k]).db, ls[k].events[..i]), ls[k].events[i]).value;
    BlockRowStays(ls, k, i, st, row);
    AlwaysSynced(ls);
    assert Shows(Exec(ls).emitter, st, Exec(ls).db);
    Projection(ls);
    M.HandedIff(EmitterPart(ls), C.Event(st, row));
    M.ExactlyOnceIff(EmitterPart(ls));
  }

  lemma BlockRowStays(ls: seq<Label>, k: nat, i: nat, st: C.Stream, row: C.Row)
    requires k < |ls| && ls[k].Block? && Enabled(Exec(ls[..k]), ls[k]) && i < |ls[k].events|
    requires RowFor(I.Fold(Exec(ls[..k]).db, ls[k].events[..i]), ls[k].events[i]) == Some((st, row))
    ensures row in View(Exec(ls).db, st) && row.block == ls[k].number
  {
    var before, es := Exec(ls[..k]), ls[k].events;
    AlwaysSynced(ls[..k]);
    forall j: nat | j < |es| ensures EventOk(I.Fold(before.db, es[..j]), es[j], ls[k].number) {
      PrefixOk(before, es, ls[k].number, j);
    }
    EventIndexed(before.db, es, ls[k].number, i, st, row);
    assert ls[..k + 1][..k] == ls[..k];
    RowsStay(ls, k + 1, st);
    assert ls[..|ls|] == ls;
  }

  // ---- which events are reported ----

  /** The events of the blocks handled, in order. */
  ghost function History(ls: seq<Label>): seq<I.Event> {
    if ls == [] then [] else
      var init, l := ls[..|ls| - 1], ls[|ls| - 1];
      History(init) + if Enabled(Exec(init), l) && l.Block? then l.events else []
  }

  lemma {:induction false} TablesAreHistory(ls: seq<Label>)
    ensures Exec(ls).db == I.Fold(I.Empty, History(ls))
  {
    if ls != [] {
      var init, l := ls[..|ls| - 1], ls[|ls| - 1];
      TablesAreHistory(init);
      if Enabled(Exec(init), l) && l.Block? {
        I.FoldAppend(I.Empty, History(init), l.events);
      } else {
        assert History(ls) == History(init);
      }
    }
  }

  predicate AtPosition(e: I.Event, id: string) {
    RowKeys.LogKey(e.m.tx, e.m.logIndex) == id
  }

  /** A bond or trigger row has the id of a log handled before. */
  lemma {:induction false} RowsHaveLogs(log: seq<I.Event>, id: string)
    requires id in I.Fold(I.Empty, log).bonds || id in I.Fold(I.Empty, log).triggers
    ensures exists j :: 0 <= j < |log| && AtPosition(log[j], id)
  {
    var init, e := log[..|log| - 1], log[|log| - 1];
    var db := I.Fold(I.Empty, init);
    if id in db.bonds || id in db.triggers {
      RowsHaveLogs(init, id);
      var j :| 0 <= j < |init| && AtPosition(init[j], id);
      assert AtPosition(log[j], id);
    } else {
      NewRowIsLog(db, e, id);
      assert AtPosition(log[|log| - 1], id);
    }
  }

  lemma NewRowIsLog(db: I.Db, e: I.Event, id: string)
    requires id !in db.bonds && id !in db.triggers && (id in I.Apply(db, e).bonds || id in I.Apply(db, e).triggers)
    ensures AtPosition(e, id)
  {
  }

  /** A policy or listing row exists iff a purchase or listing of its key was handled. */
  lemma CreatedIff(log: seq<I.Event>, k: I.LiveKey)
    ensures I.LiveOf(I.Fold(I.Empty, log), k).Some? <==> exists j :: 0 <= j < |log| && I.Creates(log[j], k)
  {
    var p := I.FindCreation(log, k);
    if p < |log| {
      I.LiveOfLog(log, p, k);
      assert I.Creates(log[p], k);
    } else {
      I.NotYet(log, k);
    }
  }

  /** The log holds a purchase or listing of this key. */
  ghost predicate Created(log: seq<I.Event>, k: I.LiveKey) {
    exists j :: 0 <= j < |log| && I.Creates(log[j], k)
  }

  /** The key of the policy or listing an event is about. */
  function Subject(e: I.Event): Option<I.LiveKey> {
    match e
    case PolicyPurchased(product, policy, _, _, _, _, _, _) => Some(I.PolicyRef(RowKeys.PolicyKey(product, policy)))
    case TriggerSubmitted(product, policy, _, _) => Some(I.PolicyRef(RowKeys.PolicyKey(product, policy)))
    case Listed(listing, _, _, _, _, _) => Some(I.ListingRef(RowKeys.Dec(listing)))
    case Bought(listing, _, _, _, _) => Some(I.ListingRef(RowKeys.Dec(listing)))
    case _ => None
  }

  /** What the emitter reports, read off the log alone: every bond log; a trigger or fill whose purchase or listing came
      before; a purchase or listing that is the first of its key. */
  ghost predicate IsNews(log: seq<I.Event>, e: I.Event) {
    || e.BondIssued? || e.BondRedeemed?
    || ((e.TriggerSubmitted? || e.Bought?) && Created(log, Subject(e).value))
    || ((e.PolicyPurchased? || e.Listed?) && !Created(log, Subject(e).value))
  }

  /** Insert-if-absent drops no reportable event: over logs at distinct chain positions an event is reported iff it is
      news. */
  lemma ReportedIff(log: seq<I.Event>, e: I.Event)
    requires L.DistinctLogs(log + [e])
    ensures RowFor(I.Fold(I.Empty, log), e).Some? <==> IsNews(log, e)
  {
    NewPosition(log, e);
    if Subject(e).Some? { CreatedIff(log, Subject(e).value); }
  }

  /** A log at a position of its own is no row yet. */
  lemma NewPosition(log: seq<I.Event>, e: I.Event)
    requires L.DistinctLogs(log + [e])
    ensures var id, db := RowKeys.LogKey(e.m.tx, e.m.logIndex), I.Fold(I.Empty, log);
            id !in db.bonds && id !in db.triggers
  {
    var id, db := RowKeys.LogKey(e.m.tx, e.m.logIndex), I.Fold(I.Empty, log);
    assert forall j :: 0 <= j < |log| ==> (log + [e])[j] == log[j];
    assert (log + [e])[|log|] == e;
    if id in db.bonds || id in db.triggers {
      RowsHaveLogs(log, id);
      var j :| 0 <= j < |log| && AtPosition(log[j], id);
      RowKeys.LogKeyInjective(log[j].m.tx, log[j].m.logIndex, e.m.tx, e.m.logIndex);
      assert false;
    }
  }

  /** The tables an event of a block meets are those of the log before it. */
  lemma MetTables(ls: seq<Label>, es: seq<I.Event>)
    ensures I.Fold(Exec(ls).db, es) == I.Fold(I.Empty, History(ls) + es)
  {
    TablesAreHistory(ls);
    I.FoldAppend(I.Empty, History(ls), es);
  }
}
