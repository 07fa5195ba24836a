/** Where a stream starts, and what each cursor write stores, read off the schedule alone: which blocks the indexer had
    committed when the MAX query ran (src/services/chainEvents.ts:211-234). */
module FirstHead {
  import opened Basics
  import opened ChainEvents

  // ---- what the schedule says was indexed ----

  /** The block is accepted by the indexed table: higher than what is there, with rows of the new blocks only. */
  predicate Commits(l: Label, st: Stream, top: nat) {
    l.Index? && l.stream == st && top < l.top && forall r :: r in l.rows ==> top < r.block <= l.top
  }

  /** The highest block committed for a stream. */
  function Indexed(ls: seq<Label>, st: Stream): nat {
    if ls == [] then 0 else
      var before, l := Indexed(ls[..|ls| - 1], st), ls[|ls| - 1];
      if Commits(l, st, before) then l.top else before
  }

  /** The rows committed for a stream. */
  function IndexedRows(ls: seq<Label>, st: Stream): set<Row> {
    if ls == [] then {} else
      var init, l := ls[..|ls| - 1], ls[|ls| - 1];
      IndexedRows(init, st) + if Commits(l, st, Indexed(init, st)) then l.rows else {}
  }

  lemma DecisionKeepsTables(s: State, p: nat)
    ensures var s' := Apply(s, AfterHead(p)); s'.view == s.view && s'.top == s.top
  {
    if Enabled(s, AfterHead(p)) {
      var Decide(st, head) := s.procs[p];
      if head <= 0 {
        assert Apply(s, AfterHead(p)) == s.(procs := s.procs - {p});
      } else if st !in s.cursor {
        assert Apply(s, AfterHead(p)).view == s.view;
      } else if head <= s.cursor[st] {
        assert Apply(s, AfterHead(p)) == s.(procs := s.procs - {p});
      } else {
        assert Apply(s, AfterHead(p)) == s.(procs := s.procs[p := Fetch(st, s.cursor[st], head)]);
      }
    }
  }

  lemma CrashKeepsTables(s: State, p: nat, bad: set<nat>, k: nat)
    ensures var s' := Apply(s, Crash(p, bad, k)); s'.view == s.view && s'.top == s.top
  {
  }

  lemma LoopKeepsTables(s: State, p: nat, bad: set<nat>)
    ensures var s' := Apply(s, AfterFetch(p, bad)); s'.view == s.view && s'.top == s.top
    ensures var s' := Apply(s, CursorFails(p, bad)); s'.view == s.view && s'.top == s.top
  {
  }

  lemma ReadKeepsTables(s: State, p: nat, st: Stream)
    ensures var s' := Apply(s, ReadHead(p, st)); s'.view == s.view && s'.top == s.top
    ensures var s' := Apply(s, QueryFails(p)); s'.view == s.view && s'.top == s.top
  {
  }

  lemma FetchKeepsTables(s: State, p: nat, items: seq<Row>)
    ensures var s' := Apply(s, RunFetch(p, items)); s'.view == s.view && s'.top == s.top
  {
  }

  lemma OtherStepsKeepTables(s: State, l: Label)
    requires !l.Index?
    ensures Apply(s, l).view == s.view && Apply(s, l).top == s.top
  {
    match l
    case ReadHead(p, st) => ReadKeepsTables(s, p, st);
    case AfterHead(p) => DecisionKeepsTables(s, p);
    case RunFetch(p, items) => FetchKeepsTables(s, p, items);
    case AfterFetch(p, bad) => LoopKeepsTables(s, p, bad);
    case CursorFails(p, bad) => LoopKeepsTables(s, p, bad);
    case QueryFails(p) => ReadKeepsTables(s, p, PolicyPurchased);
    case Crash(p, bad, k) => CrashKeepsTables(s, p, bad, k);
  }

  lemma CommitsWhenEnabled(s: State, l: Label)
    requires l.Index?
    ensures Enabled(s, l) <==> Commits(l, l.stream, Top(s, l.stream))
  {
  }

  lemma IndexMovesTables(s: State, l: Label, u: Stream)
    requires l.Index? && (Enabled(s, l) <==> Commits(l, l.stream, Top(s, l.stream)))
    ensures Top(Apply(s, l), u) == if Commits(l, u, Top(s, u)) then l.top else Top(s, u)
    ensures View(Apply(s, l), u) == View(s, u) + if Commits(l, u, Top(s, u)) then l.rows else {}
  {
  }

  lemma {:induction false} TablesAreIndexed(ls: seq<Label>, st: Stream)
    ensures Top(Exec(Initial, ls), st) == Indexed(ls, st) && View(Exec(Initial, ls), st) == IndexedRows(ls, st)
  {
    if ls != [] {
      TablesAreIndexed(ls[..|ls| - 1], st);
      var s, l := Exec(Initial, ls[..|ls| - 1]), ls[|ls| - 1];
      if l.Index? { CommitsWhenEnabled(s, l); IndexMovesTables(s, l, st); } else { OtherStepsKeepTables(s, l); }
    }
  }

  /** A row committed after k steps lies above everything committed before. */
  lemma {:induction false} LaterIsHigher(ls: seq<Label>, k: nat, st: Stream, r: Row)
    requires k <= |ls|
    ensures Indexed(ls[..k], st) <= Indexed(ls, st)
    ensures r in IndexedRows(ls[..k], st) ==> r in IndexedRows(ls, st) && r.block <= Indexed(ls[..k], st)
    ensures r in IndexedRows(ls, st) && r !in IndexedRows(ls[..k], st) ==> r.block > Indexed(ls[..k], st)
  {
    if ls == [] {
    } else if k == |ls| {
      assert ls[..k] == ls;
      LaterIsHigher(ls[..k - 1], k - 1, st, r);
      assert ls[..k - 1][..k - 1] == ls[..k - 1];
    } else {
      assert ls[..|ls| - 1][..k] == ls[..k];
      LaterIsHigher(ls[..|ls| - 1], k, st, r);
    }
  }

  // ---- which read a call works from ----

  /** The step that read the head for call p: its last ReadHead that started a call. */
  ghost function ReadAt(ls: seq<Label>, p: nat): (k: nat)
    ensures ls != [] ==> k < |ls|
  {
    if ls == [] then 0 else
      var init, l := ls[..|ls| - 1], ls[|ls| - 1];
      if l.ReadHead? && l.proc == p && p !in Exec(Initial, init).procs then |init| else ReadAt(init, p)
  }

  /** The call is about the stream of its read and carries the MAX that read saw. */
  ghost predicate FromRead(ls: seq<Label>, p: nat, q: Proc) {
    var k := ReadAt(ls, p);
    k < |ls| && ls[k] == ReadHead(p, q.stream) && q.head == Indexed(ls[..k], q.stream)
  }

  /** A call keeps its stream and its head from one await to the next, and begins with a read. */
  predicate CallMoves(s: State, l: Label, s': State, p: nat) {
    p in s'.procs ==>
      if p in s.procs then s'.procs[p].stream == s.procs[p].stream && s'.procs[p].head == s.procs[p].head
      else l == ReadHead(p, s'.procs[p].stream) && s'.procs[p] == Decide(l.stream, Top(s, l.stream))
  }

  lemma AfterHeadMoves(s: State, q: nat, p: nat)
    ensures CallMoves(s, AfterHead(q), Apply(s, AfterHead(q)), p)
  {
  }

  lemma OtherMoves(s: State, l: Label, p: nat)
    requires !l.AfterHead?
    ensures CallMoves(s, l, Apply(s, l), p)
  {
    if Enabled(s, l) {
      match l
      case Index(_, _, _) =>
      case ReadHead(_, _) =>
      case RunFetch(_, _) =>
      case AfterFetch(_, _) =>
      case CursorFails(_, _) =>
      case QueryFails(_) =>
      case Crash(_, _, _) =>
    }
  }

  lemma CallStep(s: State, l: Label, p: nat)
    ensures CallMoves(s, l, Apply(s, l), p)
  {
    if l.AfterHead? { AfterHeadMoves(s, l.proc, p); } else { OtherMoves(s, l, p); }
  }

  /** A call that reaches the end of its loop, throws, or is cut short by a death is gone, and the others go on unless the
      process died. */
  lemma CallsEnd(s: State, l: Label, p: nat)
    requires Enabled(s, l)
    ensures l.Crash? ==> Apply(s, l).procs == map[]
    ensures l.AfterFetch? || l.CursorFails? || l.QueryFails? ==> (p in Apply(s, l).procs <==> p in s.procs && p != l.proc)
    ensures l.RunFetch? ==> l.proc in Apply(s, l).procs && Apply(s, l).procs[l.proc].Emit? && Apply(s, l).procs[l.proc].items == l.items
  {
    match l
    case Index(_, _, _) =>
    case ReadHead(_, _) =>
    case AfterHead(_) =>
    case RunFetch(_, _) =>
    case AfterFetch(_, _) =>
    case CursorFails(_, _) =>
    case QueryFails(_) =>
    case Crash(_, _, _) =>
  }

  lemma ReadStays(init: seq<Label>, l: Label, p: nat)
    requires p in Exec(Initial, init).procs && FromRead(init, p, Exec(Initial, init).procs[p])
    requires p in Exec(Initial, init + [l]).procs
    ensures FromRead(init + [l], p, Exec(Initial, init + [l]).procs[p])
  {
    var ls := init + [l];
    ExecSnoc(Initial, init, l);
    CallStep(Exec(Initial, init), l, p);
    assert ls[..|ls| - 1] == init;
    assert ReadAt(ls, p) == ReadAt(init, p);
    assert ls[..ReadAt(ls, p)] == init[..ReadAt(ls, p)];
  }

  lemma ReadBegins(init: seq<Label>, l: Label, p: nat)
    requires p !in Exec(Initial, init).procs && p in Exec(Initial, init + [l]).procs
    ensures FromRead(init + [l], p, Exec(Initial, init + [l]).procs[p])
  {
    var ls := init + [l];
    ExecSnoc(Initial, init, l);
    CallStep(Exec(Initial, init), l, p);
    TablesAreIndexed(init, l.stream);
    assert ls[..|ls| - 1] == init;
    assert ReadAt(ls, p) == |init|;
    assert ls[..ReadAt(ls, p)] == init;
  }

  /** Over every run, a call in flight works from the MAX that was true when its own read ran. */
  lemma {:induction false} CallsWorkFromReads(ls: seq<Label>, p: nat)
    requires p in Exec(Initial, ls).procs
    ensures FromRead(ls, p, Exec(Initial, ls).procs[p])
  {
    var init, l := ls[..|ls| - 1], ls[|ls| - 1];
    assert ls == init + [l];
    if p in Exec(Initial, init).procs {
      CallsWorkFromReads(init, p);
      ReadStays(init, l, p);
    } else {
      ReadBegins(init, l, p);
    }
  }

  // ---- what a call does with the MAX it read ----

  /** With an empty table nothing happens; without a cursor the MAX itself is stored and nothing is fetched; with one the
      cursor stays, and what lies above it up to the MAX is fetched, if anything can. */
  predicate Decided(s: State, s': State, p: nat, st: Stream, seen: nat) {
    && (st !in s.cursor && seen > 0 ==> s'.cursor == s.cursor[st := seen] && p !in s'.procs)
    && (st in s.cursor || seen == 0 ==> s'.cursor == s.cursor)
    && (st in s.cursor && seen > s.cursor[st] ==> p in s'.procs && s'.procs[p] == Fetch(st, s.cursor[st], seen))
    && (st in s.cursor && seen <= s.cursor[st] ==> p !in s'.procs)
    && (seen == 0 ==> p !in s'.procs)
  }

  lemma DecideStep(s: State, p: nat, st: Stream, seen: nat)
    requires p in s.procs && s.procs[p] == Decide(st, seen)
    requires st in s.cursor ==> s.cursor[st] > 0
    ensures Decided(s, Apply(s, AfterHead(p)), p, st, seen)
  {
  }

  lemma HeadDecides(ls: seq<Label>, p: nat)
    requires p in Exec(Initial, ls).procs && Exec(Initial, ls).procs[p].Decide?
    ensures var s := Exec(Initial, ls);
            var st := s.procs[p].stream;
            Decided(s, Exec(Initial, ls + [AfterHead(p)]), p, st, Indexed(ls[..ReadAt(ls, p)], st))
  {
    AlwaysInv(ls);
    CallsWorkFromReads(ls, p);
    ExecSnoc(Initial, ls, AfterHead(p));
    var q := Exec(Initial, ls).procs[p];
    DecideStep(Exec(Initial, ls), p, q.stream, q.head);
  }

  /** The cursor write after the emit loop stores the MAX its own call read. */
  lemma FetchStoresHead(ls: seq<Label>, p: nat, bad: set<nat>)
    requires p in Exec(Initial, ls).procs && Exec(Initial, ls).procs[p].Emit?
    ensures var s := Exec(Initial, ls);
            var st := s.procs[p].stream;
            Exec(Initial, ls + [AfterFetch(p, bad)]).cursor == s.cursor[st := Indexed(ls[..ReadAt(ls, p)], st)]
  {
    CallsWorkFromReads(ls, p);
    ExecSnoc(Initial, ls, AfterFetch(p, bad));
  }

  // ---- the first cursor ----

  /** The step lets a call of the stream past its head with a non-empty table. */
  ghost predicate PassesHead(init: seq<Label>, l: Label, st: Stream) {
    && l.AfterHead? && l.proc in Exec(Initial, init).procs && Exec(Initial, init).procs[l.proc].Decide?
    && Exec(Initial, init).procs[l.proc].stream == st && Indexed(init[..ReadAt(init, l.proc)], st) > 0
  }

  /** The read of the stream's first call that got past its head with a non-empty table. */
  ghost function FirstRead(ls: seq<Label>, st: Stream): (o: Option<nat>)
    ensures o.Some? ==> o.value < |ls|
  {
    if ls == [] then None else
      var init, l := ls[..|ls| - 1], ls[|ls| - 1];
      if FirstRead(init, st).Some? then FirstRead(init, st)
      else if PassesHead(init, l, st) then Some(ReadAt(init, l.proc)) else None
  }

  /** A stream has a cursor exactly when it had such a call, and started at the MAX that call read. */
  ghost predicate StartsAtRead(ls: seq<Label>, st: Stream) {
    var s, o := Exec(Initial, ls), FirstRead(ls, st);
    && (o.Some? <==> st in s.cursor) && (o.Some? <==> st in s.start)
    && (o.Some? ==> s.start[st] == Indexed(ls[..o.value], st))
  }

  /** One step's effect on the set of streams that have a cursor. */
  predicate Started(s: State, l: Label, s': State, st: Stream) {
    var first := st !in s.cursor && l.AfterHead? && l.proc in s.procs && s.procs[l.proc].Decide?
                 && s.procs[l.proc].stream == st && s.procs[l.proc].head > 0;
    && (st in s'.cursor <==> st in s.cursor || first) && (st in s'.start <==> st in s.start || first)
    && (st in s.start && !first ==> s'.start[st] == s.start[st])
    && (first ==> s'.start[st] == s.procs[l.proc].head)
  }

  lemma StartedStep(s: State, l: Label, st: Stream)
    requires s.cursor.Keys == s.start.Keys
    requires forall p :: p in s.procs && s.procs[p].Emit? ==> s.procs[p].stream in s.cursor
    ensures Started(s, l, Apply(s, l), st)
  {
    if Enabled(s, l) {
      match l
      case Index(_, _, _) =>
      case ReadHead(_, _) =>
      case AfterHead(_) =>
      case RunFetch(_, _) =>
      case AfterFetch(_, _) =>
      case CursorFails(_, _) =>
      case QueryFails(_) =>
      case Crash(_, _, _) =>
    }
  }

  /** Over every run, a stream's first cursor is the MAX that was true when the first run's own read ran: no higher and
      no lower. */
  lemma {:induction false} FirstCursorIsHeadRead(ls: seq<Label>, st: Stream)
    ensures StartsAtRead(ls, st)
  {
    if ls != [] {
      var init, l := ls[..|ls| - 1], ls[|ls| - 1];
      var s := Exec(Initial, init);
      assert ls == init + [l];
      FirstCursorIsHeadRead(init, st);
      AlwaysInv(init);
      FlightsHaveCursors(s);
      StartedStep(s, l, st);
      if l.AfterHead? && l.proc in s.procs { CallsWorkFromReads(init, l.proc); }
      ExecSnoc(Initial, init, l);
      StartFollows(init, l, s, Apply(s, l), st);
    }
  }

  lemma FlightsHaveCursors(s: State)
    requires ProcsOk(s)
    ensures forall p :: p in s.procs && s.procs[p].Emit? ==> s.procs[p].stream in s.cursor
  {
    forall p | p in s.procs && s.procs[p].Emit? ensures s.procs[p].stream in s.cursor { assert ProcOk(s, s.procs[p]); }
  }

  lemma StartFollows(init: seq<Label>, l: Label, s: State, s': State, st: Stream)
    requires s == Exec(Initial, init) && s' == Exec(Initial, init + [l])
    requires StartsAtRead(init, st) && Started(s, l, s', st)
    requires l.AfterHead? && l.proc in s.procs ==> FromRead(init, l.proc, s.procs[l.proc])
    ensures StartsAtRead(init + [l], st)
  {
    var ls := init + [l];
    assert ls[..|ls| - 1] == init;
    assert forall k :: 0 <= k <= |init| ==> ls[..k] == init[..k];
  }

  /** History is skipped, over every run: with k the read of the stream's first run, no row indexed by then is ever handed
      to `emit`, every row indexed since that names a wallet was, up to the stored cursor, and without a first run
      none was. */
  lemma OnlyNewRowsAreHanded(ls: seq<Label>, e: Event)
    ensures var s, o := Exec(Initial, ls), FirstRead(ls, e.stream);
            && (o.None? ==> e !in s.events && e !in s.lost)
            && (o.Some? && e.row in IndexedRows(ls[..o.value], e.stream) ==> e !in s.events && e !in s.lost)
            && (e in s.events || e in s.lost ==> e.row in IndexedRows(ls, e.stream) && e.row.block > Indexed(ls[..o.value], e.stream))
            && (o.Some? && e.row in IndexedRows(ls, e.stream) && e.row !in IndexedRows(ls[..o.value], e.stream)
                && e.stream in s.cursor && e.row.block <= s.cursor[e.stream] && e.row.wallet != ""
                ==> e in s.events || e in s.lost)
  {
    var s, o := Exec(Initial, ls), FirstRead(ls, e.stream);
    AlwaysInv(ls);
    FirstCursorIsHeadRead(ls, e.stream);
    TablesAreIndexed(ls, e.stream);
    if o.Some? { LaterIsHigher(ls, o.value, e.stream, e.row); }
    NoLoss(ls, e.stream, e.row);
    if e in s.events || e in s.lost {
      HandedIsSourced(s, e);
    }
  }

  lemma HandedIsSourced(s: State, e: Event)
    requires EventsSourced(s) && (e in s.events || e in s.lost)
    ensures Sourced(s, e)
  {
    assert Tries(s, e) > 0;
  }
}
