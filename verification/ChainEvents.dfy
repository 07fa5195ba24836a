/** The on-chain event emitter of src/services/chainEvents.ts: six polled streams, each with a persisted
    block cursor. One `Label` is one SQL statement run by Postgres, one stretch of JavaScript between two
    awaits, one block committed by the indexer, or a crash. */
module ChainEvents {
  import opened Basics

  datatype Stream =
    | PolicyPurchased | PolicyTriggered | BondMinted | BondRedeemed | ListingCreated | ListingPurchased

  /** A row as a stream's query selects it: its primary key, block column and wallet column. */
  datatype Row = Row(key: string, block: nat, wallet: string)

  /** A row of webhook_events (its id is its position); the payload is a function of the stream and the row. */
  datatype Event = Event(stream: Stream, row: Row)

  /** One `processStream` call in flight, by what it is about to do when it runs next. */
  datatype Proc =
    | Decide(stream: Stream, head: nat)                             // head() resolved
    | Fetch(stream: Stream, cursor: nat, head: nat)                 // fetch(cursor, head) sent
    | Emit(stream: Stream, cursor: nat, head: nat, items: seq<Row>) // fetch resolved

  /** `view` and `top` are what each stream's SELECT and MAX would return now; `cursor` is the kv table. The rest is
      history: `lost` (emits whose insert threw and was swallowed), `start` (each first cursor), `high` (the highest
      head whose rows were all handed to emit) and `torn` (the rows handed to emit by loops a death cut short). */
  datatype State = State(
    view: map<Stream, set<Row>>,
    top: map<Stream, nat>,
    cursor: map<Stream, nat>,
    events: seq<Event>,
    procs: map<nat, Proc>,
    lost: seq<Event>,
    start: map<Stream, nat>,
    high: map<Stream, nat>,
    torn: set<Event>)

  datatype Label =
    | Index(stream: Stream, rows: set<Row>, top: nat)   // the indexer commits a block
    | ReadHead(proc: nat, stream: Stream)               // a tick reaches the stream; MAX(...) runs
    | AfterHead(proc: nat)                              // the code between the two awaits
    | RunFetch(proc: nat, items: seq<Row>)              // SELECT ... ORDER BY block runs, ties in any order
    | AfterFetch(proc: nat, bad: set<nat>)              // the emit loop; inserts at positions `bad` throw
    | CursorFails(proc: nat, bad: set<nat>)             // the emit loop, then the cursor write throws
    | QueryFails(proc: nat)                             // either query rejects, or the first cursor read or write throws
    | Crash(proc: nat, bad: set<nat>, k: nat)           // the process dies, k rows into proc's emit loop

  const Initial := State(map[], map[], map[], [], map[], [], map[], map[], {})

  function View(s: State, st: Stream): set<Row> {
    if st in s.view then s.view[st] else {}
  }

  function Top(s: State, st: Stream): nat {
    if st in s.top then s.top[st] else 0
  }

  function High(s: State, st: Stream): nat {
    if st in s.high then s.high[st] else 0
  }

  function Max(a: nat, b: nat): nat { if a >= b then a else b }

  /** The events of the rows that name a wallet. */
  function Named(st: Stream, items: seq<Row>): set<Event> {
    set i | 0 <= i < |items| && items[i].wallet != "" :: Event(st, items[i])
  }

  /** WHERE block > lo AND block <= hi. */
  function Between(rows: set<Row>, lo: nat, hi: nat): set<Row> {
    set r | r in rows && lo < r.block <= hi
  }

  predicate Ordering(items: seq<Row>, rows: set<Row>) {
    && multiset(items) == multiset(rows)
    && (forall i, j :: 0 <= i < j < |items| ==> items[i].block <= items[j].block)
  }

  /** The inserts the emit loop performs, and those it attempts but swallows. */
  function Emitted(st: Stream, items: seq<Row>, bad: set<nat>): seq<Event> {
    if items == [] then [] else
      var n := |items| - 1;
      Emitted(st, items[..n], bad) + (if items[n].wallet != "" && n !in bad then [Event(st, items[n])] else [])
  }

  function Swallowed(st: Stream, items: seq<Row>, bad: set<nat>): seq<Event> {
    if items == [] then [] else
      var n := |items| - 1;
      Swallowed(st, items[..n], bad) + (if items[n].wallet != "" && n in bad then [Event(st, items[n])] else [])
  }

  predicate Enabled(s: State, l: Label) {
    match l
    case Index(st, rows, top) => Top(s, st) < top && forall r :: r in rows ==> Top(s, st) < r.block <= top
    case ReadHead(p, _) => p !in s.procs
    case AfterHead(p) => p in s.procs && s.procs[p].Decide?
    case RunFetch(p, items) =>
      && p in s.procs && s.procs[p].Fetch?
      && Ordering(items, Between(View(s, s.procs[p].stream), s.procs[p].cursor, s.procs[p].head))
    case AfterFetch(p, _) => p in s.procs && s.procs[p].Emit?
    case CursorFails(p, _) => p in s.procs && s.procs[p].Emit?
    case QueryFails(p) => p in s.procs
    case Crash(p, _, k) => k > 0 ==> p in s.procs && s.procs[p].Emit? && k <= |s.procs[p].items|
  }

  function Apply(s: State, l: Label): State {
    if !Enabled(s, l) then s else
    match l
    case Index(st, rows, top) =>
      s.(view := s.view[st := View(s, st) + rows], top := s.top[st := top])
    case ReadHead(p, st) => s.(procs := s.procs[p := Decide(st, Top(s, st))])
    case AfterHead(p) =>
      var Decide(st, head) := s.procs[p];
      if head <= 0 then s.(procs := s.procs - {p})
      else if st !in s.cursor then
        s.(procs := s.procs - {p}, cursor := s.cursor[st := head], start := s.start[st := head], high := s.high[st := head])
      else if head <= s.cursor[st] then s.(procs := s.procs - {p})
      else s.(procs := s.procs[p := Fetch(st, s.cursor[st], head)])
    case RunFetch(p, items) =>
      s.(procs := s.procs[p := Emit(s.procs[p].stream, s.procs[p].cursor, s.procs[p].head, items)])
    case AfterFetch(p, bad) =>
      var Emit(st, _, head, items) := s.procs[p];
      s.(procs := s.procs - {p}, cursor := s.cursor[st := head], high := s.high[st := Max(High(s, st), head)],
         events := s.events + Emitted(st, items, bad), lost := s.lost + Swallowed(st, items, bad))
    case CursorFails(p, bad) =>
      var Emit(st, _, head, items) := s.procs[p];
      s.(procs := s.procs - {p}, high := s.high[st := Max(High(s, st), head)],
         events := s.events + Emitted(st, items, bad), lost := s.lost + Swallowed(st, items, bad))
    case QueryFails(p) => s.(procs := s.procs - {p})
    case Crash(p, bad, k) =>
      if k == 0 then s.(procs := map[]) else
      var Emit(st, _, _, items) := s.procs[p];
      s.(procs := map[], torn := s.torn + Named(st, items[..k]),
         events := s.events + Emitted(st, items[..k], bad), lost := s.lost + Swallowed(st, items[..k], bad))
  }

  function Exec(s: State, ls: seq<Label>): State {
    if ls == [] then s else Apply(Exec(s, ls[..|ls| - 1]), ls[|ls| - 1])
  }

  lemma {:induction false} ExecAppend(s: State, a: seq<Label>, b: seq<Label>)
    ensures Exec(s, a + b) == Exec(Exec(s, a), b)
  {
    if b == [] {
      assert a + b == a;
    } else {
      ExecAppend(s, a, b[..|b| - 1]);
      assert (a + b)[..|a + b| - 1] == a + b[..|b| - 1];
    }
  }

  lemma ExecOne(s: State, l: Label)
    ensures Exec(s, [l]) == Apply(s, l) && Exec(s, []) == s
  {
    assert [l][..0] == [];
  }

  lemma ExecSnoc(s: State, a: seq<Label>, l: Label)
    ensures Exec(s, a + [l]) == Apply(Exec(s, a), l)
  {
    assert (a + [l])[..|a|] == a;
  }

  // ---- counting ----

  /** How many times an event was handed to `emit`. */
  function Tries(s: State, e: Event): nat {
    multiset(s.events)[e] + multiset(s.lost)[e]
  }

  /** The emit loop hands each row with a wallet to `emit` as often as it was fetched, and nothing else. */
  ghost predicate Counted(st: Stream, items: seq<Row>, bad: set<nat>, e: Event) {
    multiset(Emitted(st, items, bad))[e] + multiset(Swallowed(st, items, bad))[e]
    == if e.stream == st && e.row.wallet != "" then multiset(items)[e.row] else 0
  }

  lemma {:induction false} EmitCounts(st: Stream, items: seq<Row>, bad: set<nat>, e: Event)
    ensures Counted(st, items, bad, e)
  {
    if items == [] {
      NothingCounted(st, bad, e);
    } else {
      var init, x := items[..|items| - 1], items[|items| - 1];
      assert items == init + [x];
      EmitCounts(st, init, bad, e);
      EmitCountsLast(st, init, x, bad, e);
    }
  }

  lemma NothingCounted(st: Stream, bad: set<nat>, e: Event)
    ensures Counted(st, [], bad, e)
  {
  }

  lemma EmitCountsLast(st: Stream, init: seq<Row>, x: Row, bad: set<nat>, e: Event)
    requires Counted(st, init, bad, e)
    ensures Counted(st, init + [x], bad, e)
  {
    EmittedLast(st, init, x, bad, e);
    SwallowedLast(st, init, x, bad, e);
    assert multiset(init + [x])[e.row] == multiset(init)[e.row] + (if x == e.row then 1 else 0);
  }

  lemma EmittedLast(st: Stream, init: seq<Row>, x: Row, bad: set<nat>, e: Event)
    ensures multiset(Emitted(st, init + [x], bad))[e]
         == multiset(Emitted(st, init, bad))[e] + (if x.wallet != "" && |init| !in bad && e == Event(st, x) then 1 else 0)
  {
    assert (init + [x])[..|init|] == init;
  }

  lemma SwallowedLast(st: Stream, init: seq<Row>, x: Row, bad: set<nat>, e: Event)
    ensures multiset(Swallowed(st, init + [x], bad))[e]
         == multiset(Swallowed(st, init, bad))[e] + (if x.wallet != "" && |init| in bad && e == Event(st, x) then 1 else 0)
  {
    assert (init + [x])[..|init|] == init;
  }

  lemma {:induction false} EmitSources(st: Stream, items: seq<Row>, bad: set<nat>, e: Event)
    requires e in Emitted(st, items, bad) || e in Swallowed(st, items, bad)
    ensures e.stream == st && e.row in items && e.row.wallet != ""
  {
    var n := |items| - 1;
    if e in Emitted(st, items[..n], bad) || e in Swallowed(st, items[..n], bad) {
      EmitSources(st, items[..n], bad, e);
    }
  }

  lemma TriesAppend(s: State, s': State, es: seq<Event>, ls: seq<Event>, e: Event)
    requires s'.events == s.events + es && s'.lost == s.lost + ls
    ensures Tries(s', e) == Tries(s, e) + multiset(es)[e] + multiset(ls)[e]
  {
  }

  // ---- what every run keeps, crashes and overlapping ticks included ----

  /** Every row of the stream in (start, x] that names a wallet was handed to `emit` at least once. */
  ghost predicate Covered(s: State, st: Stream, x: nat)
    requires st in s.start
  {
    forall r :: r in View(s, st) && s.start[st] < r.block <= x && r.wallet != "" ==> Tries(s, Event(st, r)) >= 1
  }

  ghost predicate ProcOk(s: State, p: Proc) {
    && p.head <= Top(s, p.stream)
    && (!p.Decide? ==>
          && p.stream in s.cursor && p.stream in s.start
          && s.start[p.stream] <= p.cursor < p.head && Covered(s, p.stream, p.cursor))
    && (p.Emit? ==> multiset(p.items) == multiset(Between(View(s, p.stream), p.cursor, p.head)))
  }

  ghost predicate RowsBelowTop(s: State) {
    forall st, r :: r in View(s, st) ==> r.block <= Top(s, st)
  }

  ghost predicate CursorsOk(s: State) {
    && s.cursor.Keys == s.start.Keys
    && (forall st :: st in s.cursor ==> 0 < s.start[st] <= s.cursor[st] <= Top(s, st) && Covered(s, st, s.cursor[st]))
  }

  ghost predicate ProcsOk(s: State) {
    forall p :: p in s.procs ==> ProcOk(s, s.procs[p])
  }

  /** An event is for a row of its stream above the stream's first cursor. */
  ghost predicate Sourced(s: State, e: Event) {
    e.stream in s.start && e.row in View(s, e.stream) && s.start[e.stream] < e.row.block && e.row.wallet != ""
  }

  ghost predicate EventsSourced(s: State) {
    forall e :: Tries(s, e) > 0 ==> Sourced(s, e)
  }

  ghost predicate Inv(s: State) {
    RowsBelowTop(s) && CursorsOk(s) && ProcsOk(s) && EventsSourced(s)
  }

  /** The facts about what was handed to `emit` survive a step that adds to it and keeps the rows. */
  ghost predicate Grows(s: State, s': State) {
    && s'.view == s.view && s'.top == s.top
    && (forall e :: Tries(s', e) >= Tries(s, e))
    && (forall st :: st in s.start ==> st in s'.start && s'.start[st] == s.start[st])
  }

  lemma GrowsCover(s: State, s': State, st: Stream, x: nat)
    requires Grows(s, s') && st in s.start && Covered(s, st, x)
    ensures Covered(s', st, x)
  {
  }

  lemma GrowsProc(s: State, s': State, p: Proc)
    requires Grows(s, s') && ProcOk(s, p) && s.cursor.Keys <= s'.cursor.Keys
    ensures ProcOk(s', p)
  {
    if !p.Decide? { GrowsCover(s, s', p.stream, p.cursor); }
  }

  lemma GrowsProcs(s: State, s': State)
    requires Grows(s, s') && ProcsOk(s) && s.cursor.Keys <= s'.cursor.Keys
    ensures forall p :: p in s.procs ==> ProcOk(s', s.procs[p])
  {
    forall p | p in s.procs ensures ProcOk(s', s.procs[p]) { GrowsProc(s, s', s.procs[p]); }
  }

  lemma GrowsCursors(s: State, s': State)
    requires Grows(s, s') && CursorsOk(s)
    ensures forall st :: st in s.cursor ==> Covered(s', st, s.cursor[st])
  {
    forall st | st in s.cursor ensures Covered(s', st, s.cursor[st]) { GrowsCover(s, s', st, s.cursor[st]); }
  }

  /** The first k rows of an emit loop. */
  ghost predicate EmitsPrefix(s: State, s': State, p: Proc, k: nat, bad: set<nat>) {
    && p.Emit? && k <= |p.items|
    && s'.view == s.view && s'.top == s.top && s'.start == s.start
    && s'.events == s.events + Emitted(p.stream, p.items[..k], bad)
    && s'.lost == s.lost + Swallowed(p.stream, p.items[..k], bad)
  }

  lemma EmissionGrows(s: State, s': State, p: Proc, k: nat, bad: set<nat>)
    requires EmitsPrefix(s, s', p, k, bad)
    ensures Grows(s, s')
  {
    forall e ensures Tries(s', e) >= Tries(s, e) {
      TriesAppend(s, s', Emitted(p.stream, p.items[..k], bad), Swallowed(p.stream, p.items[..k], bad), e);
    }
  }

  lemma EmissionSourced(s: State, s': State, p: Proc, k: nat, bad: set<nat>)
    requires EmitsPrefix(s, s', p, k, bad) && EventsSourced(s) && ProcOk(s, p)
    ensures EventsSourced(s')
  {
    var es, ws := Emitted(p.stream, p.items[..k], bad), Swallowed(p.stream, p.items[..k], bad);
    forall e | Tries(s', e) > 0 ensures Sourced(s', e) {
      TriesAppend(s, s', es, ws, e);
      if Tries(s, e) > 0 {
        assert Sourced(s, e);
      } else {
        EmitSources(p.stream, p.items[..k], bad, e);
        assert e.row in multiset(p.items);
      }
    }
  }

  lemma EmissionCovers(s: State, s': State, p: Proc, bad: set<nat>)
    requires p.Emit? && EmitsPrefix(s, s', p, |p.items|, bad) && ProcOk(s, p)
    ensures Covered(s', p.stream, p.head)
  {
    var st := p.stream;
    assert p.items[..|p.items|] == p.items;
    forall r | r in View(s', st) && s'.start[st] < r.block <= p.head && r.wallet != ""
      ensures Tries(s', Event(st, r)) >= 1
    {
      var e := Event(st, r);
      TriesAppend(s, s', Emitted(st, p.items, bad), Swallowed(st, p.items, bad), e);
      EmitCounts(st, p.items, bad, e);
      if r.block > p.cursor {
        assert r in multiset(p.items);
      } else {
        assert Tries(s, e) >= 1;
      }
    }
  }

  lemma StepKeepsInv(s: State, l: Label)
    requires Inv(s)
    ensures Inv(Apply(s, l))
  {
    if Enabled(s, l) {
      match l
      case Index(st, rows, top) => IndexKeepsInv(s, Apply(s, l), st, rows, top);
      case AfterHead(p) => AfterHeadKeepsInv(s, Apply(s, l), p);
      case ReadHead(_, _) => CallKeepsInv(s, l);
      case RunFetch(_, _) => CallKeepsInv(s, l);
      case QueryFails(_) => CallKeepsInv(s, l);
      case AfterFetch(_, _) => EmissionKeepsInv(s, l);
      case CursorFails(_, _) => EmissionKeepsInv(s, l);
      case Crash(_, _, k) => if k == 0 { CallKeepsInv(s, l); } else { EmissionKeepsInv(s, l); }
    }
  }

  lemma CallKeepsInv(s: State, l: Label)
    requires Inv(s) && Enabled(s, l) && (l.ReadHead? || l.RunFetch? || l.QueryFails? || (l.Crash? && l.k == 0))
    ensures Inv(Apply(s, l))
  {
    var s' := Apply(s, l);
    if l.RunFetch? {
      assert ProcOk(s, s.procs[l.proc]);
      assert ProcOk(s, s'.procs[l.proc]);
    }
    ProcStepKeepsInv(s, s');
  }

  lemma EmissionKeepsInv(s: State, l: Label)
    requires Inv(s) && Enabled(s, l) && (l.AfterFetch? || l.CursorFails? || (l.Crash? && l.k > 0))
    ensures Inv(Apply(s, l))
  {
    var items := s.procs[l.proc].items;
    assert items[..|items|] == items;
    match l
    case AfterFetch(p, bad) => AfterFetchKeepsInv(s, Apply(s, l), p, bad);
    case CursorFails(p, bad) => StopKeepsInv(s, Apply(s, l), p, bad, |items|);
    case Crash(p, bad, k) => StopKeepsInv(s, Apply(s, l), p, bad, k);
  }

  /** Steps that touch only the calls in flight. */
  lemma ProcStepKeepsInv(s: State, s': State)
    requires Inv(s) && s' == s.(procs := s'.procs)
    requires forall p :: p in s'.procs ==> ProcOk(s, s'.procs[p])
    ensures Inv(s')
  {
    SameEvents(s, s');
    GrowsCursors(s, s');
    forall p | p in s'.procs ensures ProcOk(s', s'.procs[p]) { GrowsProc(s, s', s'.procs[p]); }
    RowsStayBelow(s, s');
  }

  lemma AfterHeadKeepsInv(s: State, s': State, p: nat)
    requires Inv(s) && Enabled(s, AfterHead(p)) && s' == Apply(s, AfterHead(p))
    ensures Inv(s')
  {
    var Decide(st, head) := s.procs[p];
    assert ProcOk(s, s.procs[p]);
    if 0 < head && st !in s.cursor {
      FirstRunKeepsInv(s, s', p);
    } else {
      FetchOk(s, st, head);
      if 0 < head && s.cursor[st] < head {
        assert s'.procs == s.procs[p := Fetch(st, s.cursor[st], head)];
      } else {
        assert s'.procs == s.procs - {p};
      }
      ProcStepKeepsInv(s, s');
    }
  }

  lemma FetchOk(s: State, st: Stream, head: nat)
    requires CursorsOk(s) && head <= Top(s, st)
    ensures st in s.cursor && s.cursor[st] < head ==> ProcOk(s, Fetch(st, s.cursor[st], head))
  {
  }

  lemma FirstRunKeepsInv(s: State, s': State, p: nat)
    requires Inv(s) && p in s.procs && s.procs[p].Decide? && 0 < s.procs[p].head && s.procs[p].stream !in s.cursor
    requires FirstRun(s, s', s.procs[p].stream, s.procs[p].head) && s'.procs == s.procs - {p}
    ensures Inv(s')
  {
    assert ProcOk(s, s.procs[p]);
    SameEvents(s, s');
    GrowsProcs(s, s');
    FirstCursor(s, s', s.procs[p].stream, s.procs[p].head);
    RowsStayBelow(s, s');
  }

  lemma SameEvents(s: State, s': State)
    requires s'.events == s.events && s'.lost == s.lost && s'.view == s.view && s'.top == s.top && EventsSourced(s)
    requires forall st :: st in s.start ==> st in s'.start && s'.start[st] == s.start[st]
    ensures Grows(s, s') && EventsSourced(s')
  {
    assert forall e :: Tries(s', e) == Tries(s, e);
    forall e | Tries(s', e) > 0 ensures Sourced(s', e) { assert Tries(s, e) > 0 && Sourced(s, e); }
  }

  lemma FirstCursor(s: State, s': State, st: Stream, head: nat)
    requires CursorsOk(s) && Grows(s, s') && st !in s.cursor && 0 < head <= Top(s, st)
    requires s'.cursor == s.cursor[st := head] && s'.start == s.start[st := head]
    ensures CursorsOk(s')
  {
    assert s'.cursor.Keys == s.cursor.Keys + {st} == s'.start.Keys;
    forall u | u in s'.cursor ensures 0 < s'.start[u] <= s'.cursor[u] <= Top(s', u) && Covered(s', u, s'.cursor[u]) {
      assert Top(s', u) == Top(s, u);
      if u != st { GrowsCover(s, s', u, s.cursor[u]); }
    }
  }

  /** The head becomes the stream's first cursor and nothing is emitted. */
  ghost predicate FirstRun(s: State, s': State, st: Stream, head: nat) {
    && s'.view == s.view && s'.top == s.top && s'.events == s.events && s'.lost == s.lost
    && s'.cursor == s.cursor[st := head] && s'.start == s.start[st := head]
  }

  lemma AfterFetchKeepsInv(s: State, s': State, p: nat, bad: set<nat>)
    requires Inv(s) && p in s.procs && s.procs[p].Emit? && EmitsPrefix(s, s', s.procs[p], |s.procs[p].items|, bad)
    requires s'.procs == s.procs - {p} && s'.cursor == s.cursor[s.procs[p].stream := s.procs[p].head]
    ensures Inv(s')
  {
    var q := s.procs[p];
    assert ProcOk(s, q);
    EmissionGrows(s, s', q, |q.items|, bad);
    EmissionSourced(s, s', q, |q.items|, bad);
    EmissionCovers(s, s', q, bad);
    assert s'.cursor.Keys == s.cursor.Keys;
    GrowsProcs(s, s');
    CursorMoves(s, s', q);
    RowsStayBelow(s, s');
  }

  lemma CursorMoves(s: State, s': State, q: Proc)
    requires CursorsOk(s) && Grows(s, s') && q.stream in s.cursor && s.start[q.stream] <= q.head <= Top(s, q.stream)
    requires s'.start == s.start && s'.cursor == s.cursor[q.stream := q.head] && Covered(s', q.stream, q.head)
    ensures CursorsOk(s')
  {
    GrowsCursors(s, s');
    assert s'.cursor.Keys == s.cursor.Keys;
    assert forall u :: Top(s', u) == Top(s, u);
  }

  lemma RowsStayBelow(s: State, s': State)
    requires RowsBelowTop(s) && s'.view == s.view && s'.top == s.top
    ensures RowsBelowTop(s')
  {
    assert forall u :: View(s', u) == View(s, u) && Top(s', u) == Top(s, u);
  }

  /** An emit loop that stops, for good or before its cursor write. */
  lemma StopKeepsInv(s: State, s': State, p: nat, bad: set<nat>, k: nat)
    requires Inv(s) && p in s.procs && EmitsPrefix(s, s', s.procs[p], k, bad) && s'.cursor == s.cursor
    requires forall q :: q in s'.procs ==> q in s.procs && s'.procs[q] == s.procs[q]
    ensures Inv(s')
  {
    assert ProcOk(s, s.procs[p]);
    EmissionGrows(s, s', s.procs[p], k, bad);
    EmissionSourced(s, s', s.procs[p], k, bad);
    GrowsCursors(s, s');
    GrowsProcs(s, s');
    RowsStayBelow(s, s');
  }

  /** A committed block adds rows above everything any cursor or in-flight call has looked at. */
  lemma IndexKeepsInv(s: State, s': State, st: Stream, rows: set<Row>, top: nat)
    requires Inv(s) && Enabled(s, Index(st, rows, top)) && s' == Apply(s, Index(st, rows, top))
    ensures Inv(s')
  {
    IndexViews(s, s', st, rows, top);
    assert forall e :: Tries(s', e) == Tries(s, e);
    forall u | u in s'.cursor ensures Covered(s', u, s'.cursor[u]) { IndexCovers(s, s', u, s.cursor[u]); }
    forall p | p in s'.procs ensures ProcOk(s', s'.procs[p]) {
      var q := s.procs[p];
      assert ProcOk(s, q);
      if !q.Decide? { IndexCovers(s, s', q.stream, q.cursor); }
      if q.Emit? {
        assert Between(View(s', q.stream), q.cursor, q.head) == Between(View(s, q.stream), q.cursor, q.head);
      }
    }
    forall e | Tries(s', e) > 0 ensures Sourced(s', e) { assert Sourced(s, e); }
  }

  /** New rows lie above the old top and below the new one. */
  ghost predicate Raised(s: State, s': State) {
    forall u :: View(s, u) <= View(s', u) && Top(s, u) <= Top(s', u)
                && forall r :: r in View(s', u) ==> r.block <= Top(s', u) && (r in View(s, u) || r.block > Top(s, u))
  }

  lemma IndexViews(s: State, s': State, st: Stream, rows: set<Row>, top: nat)
    requires RowsBelowTop(s) && Enabled(s, Index(st, rows, top)) && s' == Apply(s, Index(st, rows, top))
    ensures Raised(s, s')
  {
    assert View(s', st) == View(s, st) + rows && Top(s', st) == top;
    assert forall u :: u != st ==> View(s', u) == View(s, u) && Top(s', u) == Top(s, u);
  }

  lemma IndexCovers(s: State, s': State, u: Stream, x: nat)
    requires Raised(s, s') && u in s.start && s'.start == s.start && x <= Top(s, u) && Covered(s, u, x)
    requires s'.events == s.events && s'.lost == s.lost
    ensures Covered(s', u, x)
  {
    forall r | r in View(s', u) && s'.start[u] < r.block <= x && r.wallet != "" ensures Tries(s', Event(u, r)) >= 1 {
      assert r in View(s, u);
      assert Tries(s, Event(u, r)) >= 1;
    }
  }

  lemma {:induction false} AlwaysInv(ls: seq<Label>)
    ensures Inv(Exec(Initial, ls))
  {
    if ls != [] {
      AlwaysInv(ls[..|ls| - 1]);
      StepKeepsInv(Exec(Initial, ls[..|ls| - 1]), ls[|ls| - 1]);
    }
  }

  /** No loss, over every run, with crashes anywhere and ticks overlapping (even when a slow tick writes a
      smaller head over a larger cursor): every row in (first cursor, stored cursor] that names a wallet
      was handed to `emit`; the stored cursor never falls below the first one. */
  lemma NoLoss(ls: seq<Label>, st: Stream, r: Row)
    ensures var s := Exec(Initial, ls);
            st in s.cursor ==>
              && st in s.start && s.start[st] <= s.cursor[st]
              && (r in View(s, st) && s.start[st] < r.block <= s.cursor[st] && r.wallet != ""
                  ==> Event(st, r) in s.events || Event(st, r) in s.lost)
  {
    AlwaysInv(ls);
    var s := Exec(Initial, ls);
    if st in s.cursor && r in View(s, st) && s.start[st] < r.block <= s.cursor[st] && r.wallet != "" {
      assert Covered(s, st, s.cursor[st]);
      assert Tries(s, Event(st, r)) >= 1;
    }
  }

  /** No history flood, over every run: an event exists only for a row of its stream above the first cursor. */
  lemma NoHistoryFlood(ls: seq<Label>, e: Event)
    requires e in Exec(Initial, ls).events
    ensures var s := Exec(Initial, ls);
            e.stream in s.start && e.row in View(s, e.stream) && e.row.block > s.start[e.stream]
  {
    AlwaysInv(ls);
    assert Tries(Exec(Initial, ls), e) > 0;
    assert Sourced(Exec(Initial, ls), e);
  }

  // ---- exactly once ----

  /** No second call of the same stream starts while one is in flight, no crash interrupts an emit loop and no
      cursor write throws after one. Crashes at any other moment are allowed. */
  predicate CalmStep(s: State, l: Label) {
    && (l.ReadHead? ==> forall p :: p in s.procs ==> s.procs[p].stream != l.stream)
    && (l.Crash? ==> l.k == 0) && !l.CursorFails?
  }

  predicate Calm(ls: seq<Label>) {
    ls == [] || (Calm(ls[..|ls| - 1]) && CalmStep(Exec(Initial, ls[..|ls| - 1]), ls[|ls| - 1]))
  }

  /** The rows the stored cursor says were handled. */
  predicate Due(s: State, e: Event) {
    && e.stream in s.cursor && e.stream in s.start
    && e.row in View(s, e.stream) && s.start[e.stream] < e.row.block <= s.cursor[e.stream]
    && e.row.wallet != ""
  }

  ghost predicate Exact(s: State) {
    ExactTries(s) && ExactProcs(s)
  }

  ghost predicate ExactTries(s: State) {
    forall e :: Tries(s, e) == if Due(s, e) then 1 else 0
  }

  /** A call past its decision works from the stored cursor, and is the only call of its stream. */
  ghost predicate ExactProcs(s: State) {
    && (forall p :: p in s.procs && !s.procs[p].Decide? ==>
          s.procs[p].stream in s.cursor && s.procs[p].cursor == s.cursor[s.procs[p].stream])
    && (forall p, q :: p in s.procs && q in s.procs && s.procs[p].stream == s.procs[q].stream ==> p == q)
  }

  lemma CalmKeepsExact(s: State, l: Label)
    requires Inv(s) && Exact(s) && CalmStep(s, l)
    ensures Exact(Apply(s, l))
  {
    CalmKeepsExactProcs(s, l);
    if Enabled(s, l) {
      var s' := Apply(s, l);
      match l
      case AfterFetch(p, bad) => AfterFetchKeepsExact(s, s', p, bad);
      case Index(st, rows, top) =>
        IndexViews(s, s', st, rows, top);
        forall e ensures Tries(s', e) == if Due(s', e) then 1 else 0 {
          assert Tries(s', e) == Tries(s, e);
          assert Due(s', e) == Due(s, e);
        }
      case AfterHead(p) =>
        var Decide(st, head) := s.procs[p];
        if 0 < head && st !in s.cursor { FirstRunKeepsExact(s, s', st, head); } else { QuietKeepsExact(s, s'); }
      case _ => QuietKeepsExact(s, s');
    }
  }

  lemma QuietKeepsExact(s: State, s': State)
    requires ExactTries(s) && s' == s.(procs := s'.procs)
    ensures ExactTries(s')
  {
    forall e ensures Tries(s', e) == if Due(s', e) then 1 else 0 {
      assert Tries(s', e) == Tries(s, e);
    }
  }

  lemma FirstRunKeepsExact(s: State, s': State, st: Stream, head: nat)
    requires ExactTries(s) && FirstRun(s, s', st, head) && st !in s.cursor
    ensures ExactTries(s')
  {
    forall e ensures Tries(s', e) == if Due(s', e) then 1 else 0 {
      assert Tries(s', e) == Tries(s, e);
      assert View(s', e.stream) == View(s, e.stream);
    }
  }

  lemma CalmKeepsExactProcs(s: State, l: Label)
    requires Inv(s) && ExactProcs(s) && CalmStep(s, l)
    ensures ExactProcs(Apply(s, l))
  {
    if Enabled(s, l) {
      match l
      case Index(_, _, _) =>
      case Crash(_, _, _) =>
      case CursorFails(_, _) =>
      case ReadHead(p, st) => OneProcMoves(s, Apply(s, l), p, st);
      case AfterHead(p) => AfterHeadKeepsAlone(s, p);
      case RunFetch(p, items) => OneOfStream(s, p); OneProcMoves(s, Apply(s, l), p, s.procs[p].stream);
      case AfterFetch(p, bad) => OneOfStream(s, p); OneProcMoves(s, Apply(s, l), p, s.procs[p].stream);
      case QueryFails(p) => OneOfStream(s, p); OneProcMoves(s, Apply(s, l), p, s.procs[p].stream);
    }
  }

  lemma AfterHeadKeepsAlone(s: State, p: nat)
    requires ExactProcs(s) && Enabled(s, AfterHead(p))
    ensures ExactProcs(Apply(s, AfterHead(p)))
  {
    var Decide(st, head) := s.procs[p];
    var s' := Apply(s, AfterHead(p));
    OneOfStream(s, p);
    if 0 < head && st !in s.cursor {
      assert s'.procs == s.procs - {p} && s'.cursor == s.cursor[st := head];
    } else if 0 < head && s.cursor[st] < head {
      assert s'.procs == s.procs[p := Fetch(st, s.cursor[st], head)] && s'.cursor == s.cursor;
    } else {
      assert s'.procs == s.procs - {p} && s'.cursor == s.cursor;
    }
    OneProcMoves(s, s', p, st);
  }

  lemma OneOfStream(s: State, p: nat)
    requires ExactProcs(s) && p in s.procs
    ensures forall q :: q in s.procs && q != p ==> s.procs[q].stream != s.procs[p].stream
  {
  }

  /** A step that moves one call, and at most its own stream's cursor. */
  lemma OneProcMoves(s: State, s': State, p: nat, st: Stream)
    requires ExactProcs(s)
    requires forall q :: q in s'.procs && q != p ==> q in s.procs && s'.procs[q] == s.procs[q] && s.procs[q].stream != st
    requires forall u :: u in s.cursor && u != st ==> u in s'.cursor && s'.cursor[u] == s.cursor[u]
    requires p in s'.procs ==> s'.procs[p].stream == st && (!s'.procs[p].Decide? ==> st in s'.cursor && s'.procs[p].cursor == s'.cursor[st])
    ensures ExactProcs(s')
  {
  }

  lemma AfterFetchKeepsExact(s: State, s': State, p: nat, bad: set<nat>)
    requires Inv(s) && Exact(s) && Enabled(s, AfterFetch(p, bad)) && s' == Apply(s, AfterFetch(p, bad))
    ensures ExactTries(s')
  {
    assert ProcOk(s, s.procs[p]);
    forall e ensures Tries(s', e) == if Due(s', e) then 1 else 0 {
      EmissionIsExact(s, s', s.procs[p], bad, e);
    }
  }

  lemma EmissionIsExact(s: State, s': State, q: Proc, bad: set<nat>, e: Event)
    requires q.Emit? && ProcOk(s, q) && q.cursor == s.cursor[q.stream] && ExactTries(s)
    requires s'.view == s.view && s'.start == s.start && s'.cursor == s.cursor[q.stream := q.head]
    requires s'.events == s.events + Emitted(q.stream, q.items, bad) && s'.lost == s.lost + Swallowed(q.stream, q.items, bad)
    ensures Tries(s', e) == if Due(s', e) then 1 else 0
  {
    assert Tries(s, e) == if Due(s, e) then 1 else 0;
    TriesAppend(s, s', Emitted(q.stream, q.items, bad), Swallowed(q.stream, q.items, bad), e);
    EmitCounts(q.stream, q.items, bad, e);
    DueGrows(s, s', q, e);
    if e.stream == q.stream { FetchedOnce(q.items, Between(View(s, q.stream), q.cursor, q.head), e.row); }
  }

  lemma FetchedOnce(items: seq<Row>, rows: set<Row>, r: Row)
    requires multiset(items) == multiset(rows)
    ensures multiset(items)[r] == if r in rows then 1 else 0
  {
  }

  /** What the cursor write adds to what is due. */
  lemma DueGrows(s: State, s': State, q: Proc, e: Event)
    requires q.Emit? && ProcOk(s, q) && q.cursor == s.cursor[q.stream]
    requires s'.view == s.view && s'.start == s.start && s'.cursor == s.cursor[q.stream := q.head]
    ensures Due(s', e) <==> Due(s, e) || (e.stream == q.stream && e.row.wallet != "" && e.row in Between(View(s, q.stream), q.cursor, q.head))
    ensures !(Due(s, e) && e.stream == q.stream && e.row in Between(View(s, q.stream), q.cursor, q.head))
  {
    assert View(s', e.stream) == View(s, e.stream);
  }

  lemma {:induction false} CalmExact(ls: seq<Label>)
    requires Calm(ls)
    ensures Exact(Exec(Initial, ls))
  {
    if ls != [] {
      CalmExact(ls[..|ls| - 1]);
      AlwaysInv(ls[..|ls| - 1]);
      CalmKeepsExact(Exec(Initial, ls[..|ls| - 1]), ls[|ls| - 1]);
    }
  }

  /** Exactly once, over every calm run and any interleaving with the indexer: a row in
      (first cursor, stored cursor] that names a wallet was handed to `emit` exactly once (one inserted
      event unless that insert threw), every other row never. */
  lemma ExactlyOnce(ls: seq<Label>, e: Event)
    requires Calm(ls)
    ensures var s := Exec(Initial, ls);
            && (Due(s, e) ==> multiset(s.events)[e] + multiset(s.lost)[e] == 1)
            && (!Due(s, e) ==> e !in s.events && e !in s.lost)
  {
    CalmExact(ls);
    var s := Exec(Initial, ls);
    assert Tries(s, e) == if Due(s, e) then 1 else 0;
  }

  /** The kv cursors, the webhook_events table, and the two stretches of `processStream` that touch them. */
  class Emitter {
    var kv: map<Stream, nat>
    var events: seq<Event>
    ghost var lost: seq<Event>

    ghost predicate Matches(s: State) reads this {
      kv == s.cursor && events == s.events && lost == s.lost
    }

    constructor ()
      ensures Matches(Initial)
    {
      kv, events, lost := map[], [], [];
    }

    /** From the resolution of head() to the call of fetch; returns fetch's cursor argument, if it is called. */
    method AfterHead(ghost s: State, ghost p: nat, st: Stream, safeHead: nat) returns (cursor: Option<nat>)
      requires Matches(s) && p in s.procs && s.procs[p] == Decide(st, safeHead)
      modifies this
      ensures Matches(Apply(s, Label.AfterHead(p)))
      ensures var s' := Apply(s, Label.AfterHead(p));
              match cursor case None => p !in s'.procs case Some(c) => p in s'.procs && s'.procs[p] == Fetch(st, c, safeHead)
      ensures kv == if st !in old(kv) && safeHead > 0 then old(kv)[st := safeHead] else old(kv)
      ensures cursor == if st in old(kv) && safeHead > 0 && safeHead > old(kv)[st] then Some(old(kv)[st]) else None
    {
      if safeHead <= 0 {
        return None;
      }
      if st !in kv {
        kv := kv[st := safeHead];
        return None;
      }
      if safeHead <= kv[st] {
        return None;
      }
      return Some(kv[st]);
    }

    /** The emit loop and the cursor write; `bad` are the positions whose insert throws, and `written` says whether
        the cursor write succeeds. */
    method AfterFetch(ghost s: State, ghost p: nat, st: Stream, safeHead: nat, items: seq<Row>, bad: set<nat>, written: bool)
      requires Matches(s) && p in s.procs && s.procs[p].Emit?
      requires s.procs[p].stream == st && s.procs[p].head == safeHead && s.procs[p].items == items
      modifies this
      ensures Matches(Apply(s, if written then Label.AfterFetch(p, bad) else Label.CursorFails(p, bad)))
      ensures kv == if written then old(kv)[st := safeHead] else old(kv)
    {
      EmitAll(st, items, bad);
      if written {
        kv := kv[st := safeHead];
      }
    }

    method EmitAll(st: Stream, items: seq<Row>, bad: set<nat>)
      modifies this
      ensures kv == old(kv) && events == old(events) + Emitted(st, items, bad) && lost == old(lost) + Swallowed(st, items, bad)
    {
      for i := 0 to |items|
        invariant kv == old(kv)
        invariant events == old(events) + Emitted(st, items[..i], bad)
        invariant lost == old(lost) + Swallowed(st, items[..i], bad)
      {
        assert items[..i + 1][..i] == items[..i];
        if items[i].wallet != "" {
          if i in bad {
            lost := lost + [Event(st, items[i])];
          } else {
            events := events + [Event(st, items[i])];
          }
        }
      }
      assert items[..|items|] == items;
    }
  }
}
