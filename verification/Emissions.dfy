/** Exactly which rows src/services/chainEvents.ts has handed to `emit`, and exactly when it hands one again: over every
    run, with overlapping ticks, throws and deaths. */
module Emissions {
  import opened Basics
  import opened ChainEvents

  // ---- what one step hands over ----

  /** The step hands the event's row to `emit`: a whole emit loop all rows fetched, a loop a death cuts short its
      first k. */
  predicate Passes(s: State, l: Label, e: Event) {
    Enabled(s, l) && e.row.wallet != "" &&
    match l
    case AfterFetch(p, _) => PassesWhole(s, s.procs[p], e)
    case CursorFails(p, _) => PassesWhole(s, s.procs[p], e)
    case Crash(p, _, k) => k > 0 && e.stream == s.procs[p].stream && e.row in s.procs[p].items[..k]
    case _ => false
  }

  predicate PassesWhole(s: State, p: Proc, e: Event)
    requires p.Emit?
  {
    e.stream == p.stream && e.row in Between(View(s, p.stream), p.cursor, p.head)
  }

  lemma OnceFetched(items: seq<Row>, rows: set<Row>, k: nat, r: Row)
    requires multiset(items) == multiset(rows) && k <= |items|
    ensures multiset(items[..k])[r] == if r in items[..k] then 1 else 0
    ensures r in items[..k] ==> r in rows
    ensures r in items <==> r in rows
  {
    assert items == items[..k] + items[k..];
    assert r in items[..k] ==> multiset(items[..k])[r] >= 1;
    assert r in items <==> r in multiset(items);
  }

  lemma PrefixTries(s: State, s': State, p: Proc, k: nat, bad: set<nat>, e: Event)
    requires ProcOk(s, p) && EmitsPrefix(s, s', p, k, bad)
    ensures Tries(s', e) == Tries(s, e) + if e.stream == p.stream && e.row.wallet != "" && e.row in p.items[..k] then 1 else 0
  {
    TriesAppend(s, s', Emitted(p.stream, p.items[..k], bad), Swallowed(p.stream, p.items[..k], bad), e);
    EmitCounts(p.stream, p.items[..k], bad, e);
    OnceFetched(p.items, Between(View(s, p.stream), p.cursor, p.head), k, e.row);
  }

  lemma WholeTries(s: State, s': State, p: Proc, bad: set<nat>, e: Event)
    requires ProcOk(s, p) && p.Emit? && EmitsPrefix(s, s', p, |p.items|, bad)
    ensures Tries(s', e) == Tries(s, e) + if PassesWhole(s, p, e) && e.row.wallet != "" then 1 else 0
  {
    assert p.items[..|p.items|] == p.items;
    PrefixTries(s, s', p, |p.items|, bad, e);
    OnceFetched(p.items, Between(View(s, p.stream), p.cursor, p.head), |p.items|, e.row);
  }

  /** Each step hands a row over at most once. */
  lemma StepTries(s: State, l: Label, e: Event)
    requires Inv(s)
    ensures Tries(Apply(s, l), e) == Tries(s, e) + if Passes(s, l, e) then 1 else 0
  {
    if Enabled(s, l) {
      match l
      case AfterFetch(p, bad) => LoopTries(s, l, p, bad, e);
      case CursorFails(p, bad) => LoopTries(s, l, p, bad, e);
      case Crash(p, bad, k) => if k > 0 { DeathTries(s, p, bad, k, e); } else { QuietTries(s, l, e); }
      case _ => QuietTries(s, l, e);
    }
  }

  lemma QuietTries(s: State, l: Label, e: Event)
    requires !l.AfterFetch? && !l.CursorFails? && (l.Crash? ==> l.k == 0)
    ensures Tries(Apply(s, l), e) == Tries(s, e)
  {
    QuietEvents(s, l);
  }

  lemma QuietEvents(s: State, l: Label)
    requires !l.AfterFetch? && !l.CursorFails? && (l.Crash? ==> l.k == 0)
    ensures Apply(s, l).events == s.events && Apply(s, l).lost == s.lost
  {
    if Enabled(s, l) {
      match l
      case Index(_, _, _) =>
      case ReadHead(_, _) =>
      case AfterHead(_) =>
      case RunFetch(_, _) =>
      case QueryFails(_) =>
      case Crash(_, _, _) =>
    }
  }

  lemma LoopTries(s: State, l: Label, p: nat, bad: set<nat>, e: Event)
    requires Inv(s) && Enabled(s, l) && (l == AfterFetch(p, bad) || l == CursorFails(p, bad))
    ensures Tries(Apply(s, l), e) == Tries(s, e) + if PassesWhole(s, s.procs[p], e) && e.row.wallet != "" then 1 else 0
  {
    var q := s.procs[p];
    assert ProcOk(s, q) && q.items[..|q.items|] == q.items;
    WholeTries(s, Apply(s, l), q, bad, e);
  }

  lemma DeathTries(s: State, p: nat, bad: set<nat>, k: nat, e: Event)
    requires Inv(s) && Enabled(s, Crash(p, bad, k)) && k > 0
    ensures Tries(Apply(s, Crash(p, bad, k)), e) == Tries(s, e) + if Passes(s, Crash(p, bad, k), e) then 1 else 0
  {
    assert ProcOk(s, s.procs[p]);
    PrefixTries(s, Apply(s, Crash(p, bad, k)), s.procs[p], k, bad, e);
  }

  /** The steps of a run that hand the row over. */
  function PassCount(ls: seq<Label>, e: Event): nat {
    if ls == [] then 0 else
      PassCount(ls[..|ls| - 1], e) + if Passes(Exec(Initial, ls[..|ls| - 1]), ls[|ls| - 1], e) then 1 else 0
  }

  /** Over every run, a row was handed to `emit` as often as it was passed by an emit loop. */
  lemma {:induction false} TriesArePasses(ls: seq<Label>, e: Event)
    ensures Tries(Exec(Initial, ls), e) == PassCount(ls, e)
  {
    if ls != [] {
      TriesArePasses(ls[..|ls| - 1], e);
      AlwaysInv(ls[..|ls| - 1]);
      StepTries(Exec(Initial, ls[..|ls| - 1]), ls[|ls| - 1], e);
    }
  }

  // ---- which rows have been handed over ----

  /** The row names a wallet, lies above the first cursor, and is at or below the highest head worked off or was
      left behind by a death. */
  predicate Handed(s: State, e: Event) {
    && e.stream in s.start && e.row in View(s, e.stream) && e.row.wallet != ""
    && s.start[e.stream] < e.row.block && (e.row.block <= High(s, e.stream) || e in s.torn)
  }

  ghost predicate MarksOk(s: State) {
    && s.high.Keys == s.start.Keys
    && (forall st :: st in s.cursor ==> st in s.start && s.start[st] <= s.cursor[st] <= High(s, st) <= Top(s, st))
  }

  ghost predicate CallsBelow(s: State) {
    forall p :: p in s.procs && !s.procs[p].Decide? ==> s.procs[p].cursor <= High(s, s.procs[p].stream)
  }

  ghost predicate TornOk(s: State) {
    forall e :: e in s.torn ==> e.stream in s.start && e.row.block <= Top(s, e.stream)
  }

  ghost predicate HighOk(s: State) {
    MarksOk(s) && CallsBelow(s) && TornOk(s)
  }

  ghost predicate HandedOk(s: State) {
    HighOk(s) && forall e :: Tries(s, e) >= 1 <==> Handed(s, e)
  }

  /** Calls that change nothing but themselves. */
  lemma CallKeepsHigh(s: State, l: Label)
    requires HighOk(s) && Enabled(s, l) && (l.ReadHead? || l.RunFetch? || l.QueryFails? || (l.Crash? && l.k == 0))
    ensures HighOk(Apply(s, l))
    ensures forall e :: Handed(Apply(s, l), e) <==> Handed(s, e)
  {
    var s' := Apply(s, l);
    CallFrame(s, l);
    SameHigh(s, s');
    SameHanded(s, s');
  }

  lemma CallFrame(s: State, l: Label)
    requires CallsBelow(s) && Enabled(s, l) && (l.ReadHead? || l.RunFetch? || l.QueryFails? || (l.Crash? && l.k == 0))
    ensures var s' := Apply(s, l);
            && s' == s.(procs := s'.procs)
            && forall p :: p in s'.procs && !s'.procs[p].Decide? ==> s'.procs[p].cursor <= High(s, s'.procs[p].stream)
  {
  }

  lemma SameHigh(s: State, s': State)
    requires HighOk(s) && s'.high == s.high && s'.start == s.start && s'.cursor == s.cursor && s'.top == s.top && s'.torn == s.torn
    requires forall p :: p in s'.procs && !s'.procs[p].Decide? ==> s'.procs[p].cursor <= High(s, s'.procs[p].stream)
    ensures HighOk(s')
  {
    assert forall st :: High(s', st) == High(s, st) && Top(s', st) == Top(s, st);
  }

  lemma SameHanded(s: State, s': State)
    requires s'.high == s.high && s'.start == s.start && s'.view == s.view && s'.torn == s.torn
    ensures forall e :: Handed(s', e) <==> Handed(s, e)
  {
    assert forall st :: High(s', st) == High(s, st) && View(s', st) == View(s, st);
  }

  lemma AfterHeadKeepsHigh(s: State, p: nat)
    requires Inv(s) && HighOk(s) && Enabled(s, AfterHead(p))
    ensures HighOk(Apply(s, AfterHead(p)))
    ensures forall e :: Handed(Apply(s, AfterHead(p)), e) <==> Handed(s, e)
  {
    var Decide(st, head) := s.procs[p];
    var s' := Apply(s, AfterHead(p));
    assert ProcOk(s, s.procs[p]);
    if 0 < head && st !in s.cursor {
      assert s'.procs == s.procs - {p};
      FirstRunHigh(s, s', st, head);
    } else {
      if 0 < head && s.cursor[st] < head {
        assert s'.procs == s.procs[p := Fetch(st, s.cursor[st], head)];
      } else {
        assert s'.procs == s.procs - {p};
      }
      SameHigh(s, s');
      SameHanded(s, s');
    }
  }

  lemma FirstRunHigh(s: State, s': State, st: Stream, head: nat)
    requires HighOk(s) && s.cursor.Keys == s.start.Keys && st !in s.cursor && head <= Top(s, st)
    requires FirstRun(s, s', st, head) && s'.high == s.high[st := head] && s'.torn == s.torn
    requires forall p :: p in s'.procs ==> p in s.procs && s'.procs[p] == s.procs[p]
    requires forall p :: p in s.procs && !s.procs[p].Decide? ==> s.procs[p].stream in s.cursor
    ensures HighOk(s')
    ensures forall e :: Handed(s', e) <==> Handed(s, e)
  {
    FirstRunMarks(s, s', st, head);
    FirstRunHanded(s, s', st, head);
    assert forall u :: Top(s', u) == Top(s, u);
    forall p | p in s'.procs && !s'.procs[p].Decide? ensures s'.procs[p].cursor <= High(s', s'.procs[p].stream) {
      assert s.procs[p].stream != st && s.procs[p].cursor <= High(s, s.procs[p].stream);
    }
  }

  lemma FirstRunMarks(s: State, s': State, st: Stream, head: nat)
    requires MarksOk(s) && s.cursor.Keys == s.start.Keys && st !in s.cursor && head <= Top(s, st)
    requires FirstRun(s, s', st, head) && s'.high == s.high[st := head]
    ensures MarksOk(s')
  {
    assert s'.high.Keys == s.high.Keys + {st} && s'.start.Keys == s.start.Keys + {st};
    forall u | u in s'.cursor ensures u in s'.start && s'.start[u] <= s'.cursor[u] <= High(s', u) <= Top(s', u) {
      assert Top(s', u) == Top(s, u);
    }
  }

  lemma FirstRunHanded(s: State, s': State, st: Stream, head: nat)
    requires TornOk(s) && st !in s.start && FirstRun(s, s', st, head) && s'.high == s.high[st := head] && s'.torn == s.torn
    ensures forall e :: Handed(s', e) <==> Handed(s, e)
  {
    forall e ensures Handed(s', e) <==> Handed(s, e) {
      assert View(s', e.stream) == View(s, e.stream) && (e.stream != st ==> High(s', e.stream) == High(s, e.stream));
    }
  }

  lemma IndexKeepsHigh(s: State, st: Stream, rows: set<Row>, top: nat)
    requires Inv(s) && HighOk(s) && Enabled(s, Index(st, rows, top))
    ensures HighOk(Apply(s, Index(st, rows, top)))
    ensures forall e :: Handed(Apply(s, Index(st, rows, top)), e) <==> Handed(s, e)
  {
    var s' := Apply(s, Index(st, rows, top));
    IndexViews(s, s', st, rows, top);
    assert forall u :: High(s', u) == High(s, u) && Top(s, u) <= Top(s', u);
    forall e ensures Handed(s', e) <==> Handed(s, e) {
      if e.stream in s.start && e.row in View(s', e.stream) && e.row !in View(s, e.stream) {
        assert e.stream in s.cursor && e.row.block > Top(s, e.stream);
      }
    }
  }

  /** An emit loop that works off its rows raises the mark to its head. */
  ghost predicate Raised(s: State, s': State, q: Proc) {
    && s'.view == s.view && s'.top == s.top && s'.start == s.start && s'.torn == s.torn
    && s'.high == s.high[q.stream := Max(High(s, q.stream), q.head)]
  }

  lemma LoopKeepsHigh(s: State, s': State, p: nat, q: Proc)
    requires Inv(s) && HighOk(s) && p in s.procs && s.procs[p] == q && q.Emit? && Raised(s, s', q)
    requires s'.procs == s.procs - {p} && (s'.cursor == s.cursor || s'.cursor == s.cursor[q.stream := q.head])
    ensures HighOk(s')
    ensures forall e :: Handed(s', e) <==> Handed(s, e) || (PassesWhole(s, q, e) && e.row.wallet != "")
  {
    assert ProcOk(s, q);
    LoopMarks(s, s', q);
    LoopHanded(s, s', q);
    assert forall u :: Top(s', u) == Top(s, u) && High(s', u) >= High(s, u);
  }

  lemma LoopMarks(s: State, s': State, q: Proc)
    requires MarksOk(s) && Raised(s, s', q) && q.stream in s.cursor && s.start[q.stream] <= q.head <= Top(s, q.stream)
    requires s'.cursor == s.cursor || s'.cursor == s.cursor[q.stream := q.head]
    ensures MarksOk(s')
  {
    assert s'.high.Keys == s.high.Keys;
    forall u | u in s'.cursor ensures u in s'.start && s'.start[u] <= s'.cursor[u] <= High(s', u) <= Top(s', u) {
      assert Top(s', u) == Top(s, u) && u in s.cursor && s.cursor[u] <= High(s, u);
    }
  }

  lemma LoopHanded(s: State, s': State, q: Proc)
    requires q.Emit? && Raised(s, s', q) && q.stream in s.start && s.start[q.stream] <= q.cursor <= High(s, q.stream)
    ensures forall e :: Handed(s', e) <==> Handed(s, e) || (PassesWhole(s, q, e) && e.row.wallet != "")
  {
    forall e ensures Handed(s', e) <==> Handed(s, e) || (PassesWhole(s, q, e) && e.row.wallet != "") {
      assert View(s', e.stream) == View(s, e.stream) && (e.stream != q.stream ==> High(s', e.stream) == High(s, e.stream));
    }
  }

  /** A death leaves the rows of its prefix behind. */
  lemma DeathKeepsHigh(s: State, p: nat, bad: set<nat>, k: nat)
    requires Inv(s) && HighOk(s) && Enabled(s, Crash(p, bad, k)) && k > 0
    ensures HighOk(Apply(s, Crash(p, bad, k)))
    ensures forall e :: Handed(Apply(s, Crash(p, bad, k)), e) <==> Handed(s, e) || Passes(s, Crash(p, bad, k), e)
  {
    var q, s' := s.procs[p], Apply(s, Crash(p, bad, k));
    assert ProcOk(s, q);
    forall e ensures e in Named(q.stream, q.items[..k]) <==> Passes(s, Crash(p, bad, k), e)
      ensures e in Named(q.stream, q.items[..k]) ==> e.stream == q.stream && e.row.wallet != "" && e.row in Between(View(s, q.stream), q.cursor, q.head)
    {
      NamedMembers(q.stream, q.items[..k], e);
      OnceFetched(q.items, Between(View(s, q.stream), q.cursor, q.head), k, e.row);
    }
    MoreTorn(s, s', q, Named(q.stream, q.items[..k]));
  }

  lemma MoreTorn(s: State, s': State, q: Proc, more: set<Event>)
    requires HighOk(s) && q.Emit? && ProcOk(s, q)
    requires s'.view == s.view && s'.top == s.top && s'.start == s.start && s'.cursor == s.cursor && s'.high == s.high
    requires s'.procs == map[] && s'.torn == s.torn + more
    requires forall e :: e in more ==> e.stream == q.stream && e.row.wallet != "" && e.row in Between(View(s, q.stream), q.cursor, q.head)
    ensures HighOk(s')
    ensures forall e :: Handed(s', e) <==> Handed(s, e) || e in more
  {
    assert forall u :: Top(s', u) == Top(s, u) && View(s', u) == View(s, u) && High(s', u) == High(s, u);
  }

  lemma NamedMembers(st: Stream, items: seq<Row>, e: Event)
    ensures e in Named(st, items) <==> e.stream == st && e.row.wallet != "" && e.row in items
  {
    if e.stream == st && e.row.wallet != "" && e.row in items {
      var i :| 0 <= i < |items| && items[i] == e.row;
      assert Event(st, items[i]) == e;
    }
  }

  lemma StepHanded(s: State, l: Label)
    requires Inv(s) && HighOk(s)
    ensures HighOk(Apply(s, l))
    ensures forall e :: Handed(Apply(s, l), e) <==> Handed(s, e) || Passes(s, l, e)
  {
    if Enabled(s, l) {
      match l
      case Index(st, rows, top) => IndexKeepsHigh(s, st, rows, top);
      case AfterHead(p) => AfterHeadKeepsHigh(s, p);
      case AfterFetch(p, _) => LoopKeepsHigh(s, Apply(s, l), p, s.procs[p]);
      case CursorFails(p, _) => LoopKeepsHigh(s, Apply(s, l), p, s.procs[p]);
      case Crash(p, bad, k) =>
        if k > 0 { DeathKeepsHigh(s, p, bad, k); } else { CallKeepsHigh(s, l); }
      case _ => CallKeepsHigh(s, l);
    }
  }

  lemma StepKeepsHanded(s: State, l: Label)
    requires Inv(s) && HandedOk(s)
    ensures HandedOk(Apply(s, l))
  {
    StepHanded(s, l);
    forall e ensures Tries(Apply(s, l), e) >= 1 <==> Handed(Apply(s, l), e) { StepTries(s, l, e); }
  }

  lemma {:induction false} AlwaysHandedOk(ls: seq<Label>)
    ensures HandedOk(Exec(Initial, ls))
  {
    if ls != [] {
      AlwaysHandedOk(ls[..|ls| - 1]);
      AlwaysInv(ls[..|ls| - 1]);
      StepKeepsHanded(Exec(Initial, ls[..|ls| - 1]), ls[|ls| - 1]);
    }
  }

  /** Over every run: a row has been handed to `emit` iff it names a wallet, lies above the first cursor, and is at
      or below the highest head whose rows were worked off or was left behind by a death. On runs in which no
      death cuts a loop short the last case does not arise. */
  lemma HandedIff(ls: seq<Label>, e: Event)
    ensures var s := Exec(Initial, ls);
            && (Tries(s, e) >= 1 <==> Handed(s, e))
            && (e.stream in s.cursor ==> e.stream in s.start && s.start[e.stream] <= s.cursor[e.stream] <= High(s, e.stream))
            && ((forall l :: l in ls && l.Crash? ==> l.k == 0) ==> s.torn == {})
  {
    AlwaysHandedOk(ls);
    AlwaysInv(ls);
    if forall l :: l in ls && l.Crash? ==> l.k == 0 { NothingTorn(ls); }
  }

  lemma {:induction false} NothingTorn(ls: seq<Label>)
    requires forall l :: l in ls && l.Crash? ==> l.k == 0
    ensures Exec(Initial, ls).torn == {}
  {
    if ls != [] {
      var init, l := ls[..|ls| - 1], ls[|ls| - 1];
      assert l in ls && forall x :: x in init ==> x in ls;
      NothingTorn(init);
      SameTorn(Exec(Initial, init), l);
    }
  }

  lemma SameTorn(s: State, l: Label)
    requires l.Crash? ==> l.k == 0
    ensures Apply(s, l).torn == s.torn
  {
  }

  // ---- when a row is handed over again ----

  /** The guard: the rows about to be handed over include one that was handed over before. For a whole loop that is a
      wallet row in (its cursor, the highest head worked off] up to its own head, or one left behind by a death; for a
      loop a death cuts short, such a row among its first k. */
  predicate Repeats(s: State, l: Label) {
    Enabled(s, l) &&
    match l
    case AfterFetch(p, _) => RepeatsWhole(s, s.procs[p])
    case CursorFails(p, _) => RepeatsWhole(s, s.procs[p])
    case Crash(p, _, k) =>
      k > 0 && exists i :: 0 <= i < k && OldRow(s, s.procs[p].stream, s.procs[p].items[i])
    case _ => false
  }

  predicate RepeatsWhole(s: State, p: Proc)
    requires p.Emit?
  {
    exists r :: r in View(s, p.stream) && p.cursor < r.block <= p.head && OldRow(s, p.stream, r)
  }

  /** A wallet row at or below the mark, or left behind by a death. */
  predicate OldRow(s: State, st: Stream, r: Row) {
    r.wallet != "" && (r.block <= High(s, st) || Event(st, r) in s.torn)
  }

  lemma RepeatsIsOld(s: State, l: Label)
    requires Inv(s) && HighOk(s)
    ensures Repeats(s, l) <==> exists e :: Handed(s, e) && Passes(s, l, e)
  {
    if Enabled(s, l) {
      match l
      case AfterFetch(p, _) => WholeIsOld(s, s.procs[p], l);
      case CursorFails(p, _) => WholeIsOld(s, s.procs[p], l);
      case Crash(p, bad, k) => if k > 0 { DeathIsOld(s, p, bad, k); }
      case _ =>
    }
  }

  lemma WholeIsOld(s: State, p: Proc, l: Label)
    requires p.Emit? && ProcOk(s, p)
    requires forall e :: Passes(s, l, e) <==> PassesWhole(s, p, e) && e.row.wallet != ""
    ensures RepeatsWhole(s, p) <==> exists e :: Handed(s, e) && Passes(s, l, e)
  {
    if RepeatsWhole(s, p) {
      var r :| r in View(s, p.stream) && p.cursor < r.block <= p.head && OldRow(s, p.stream, r);
      assert Handed(s, Event(p.stream, r)) && Passes(s, l, Event(p.stream, r));
    }
    if e :| Handed(s, e) && Passes(s, l, e) {
      assert OldRow(s, p.stream, e.row);
    }
  }

  lemma DeathIsOld(s: State, p: nat, bad: set<nat>, k: nat)
    requires Enabled(s, Crash(p, bad, k)) && k > 0 && ProcOk(s, s.procs[p])
    ensures Repeats(s, Crash(p, bad, k)) <==> exists e :: Handed(s, e) && Passes(s, Crash(p, bad, k), e)
  {
    var q, l := s.procs[p], Crash(p, bad, k);
    if i :| 0 <= i < k && OldRow(s, q.stream, q.items[i]) {
      var e := Event(q.stream, q.items[i]);
      assert q.items[..k][i] == q.items[i];
      OnceFetched(q.items, Between(View(s, q.stream), q.cursor, q.head), k, e.row);
      assert Handed(s, e) && Passes(s, l, e);
    }
    if e :| Handed(s, e) && Passes(s, l, e) {
      var i :| 0 <= i < k && q.items[..k][i] == e.row;
      assert OldRow(s, q.stream, q.items[i]);
    }
  }

  /** Exactly when a step hands some row to `emit` again, after any run. */
  lemma RepeatIff(ls: seq<Label>, l: Label)
    ensures var s := Exec(Initial, ls);
            Repeats(s, l) <==> exists e :: Tries(s, e) >= 1 && Tries(Apply(s, l), e) > Tries(s, e)
  {
    var s := Exec(Initial, ls);
    AlwaysInv(ls);
    AlwaysHandedOk(ls);
    RepeatsIsOld(s, l);
    if e :| Handed(s, e) && Passes(s, l, e) {
      StepTries(s, l, e);
      assert Tries(s, e) >= 1 && Tries(Apply(s, l), e) > Tries(s, e);
    }
    if e :| Tries(s, e) >= 1 && Tries(Apply(s, l), e) > Tries(s, e) {
      StepTries(s, l, e);
      assert Handed(s, e) && Passes(s, l, e);
    }
  }

  predicate NoRepeat(ls: seq<Label>) {
    ls == [] || (NoRepeat(ls[..|ls| - 1]) && !Repeats(Exec(Initial, ls[..|ls| - 1]), ls[|ls| - 1]))
  }

  ghost predicate AtMostOnce(s: State) {
    forall e :: Tries(s, e) <= 1
  }

  /** Exactly once, exactly when: over every run, each row is handed to `emit` exactly once if it was handed over at all
      (`Handed`: in particular if it is due by the stored cursor), and no other row ever, iff no step of the run met the guard. */
  lemma {:induction false} ExactlyOnceIff(ls: seq<Label>)
    ensures AtMostOnce(Exec(Initial, ls)) <==> NoRepeat(ls)
    ensures NoRepeat(ls) ==> forall e :: Tries(Exec(Initial, ls), e) == if Handed(Exec(Initial, ls), e) then 1 else 0
    ensures forall e :: Due(Exec(Initial, ls), e) ==> Handed(Exec(Initial, ls), e)
  {
    AlwaysHandedOk(ls);
    AlwaysInv(ls);
    if ls != [] {
      var init, l := ls[..|ls| - 1], ls[|ls| - 1];
      ExactlyOnceIff(init);
      RepeatIff(init, l);
      AlwaysInv(init);
      OnceStep(Exec(Initial, init), l);
    }
  }

  lemma OnceStep(s: State, l: Label)
    requires Inv(s)
    requires Repeats(s, l) <==> exists e :: Tries(s, e) >= 1 && Tries(Apply(s, l), e) > Tries(s, e)
    ensures AtMostOnce(Apply(s, l)) <==> AtMostOnce(s) && !Repeats(s, l)
  {
    forall e ensures Tries(s, e) <= Tries(Apply(s, l), e) <= Tries(s, e) + 1 { StepTries(s, l, e); }
  }

  // ---- after a death ----

  function NextTick(q: nat, st: Stream, items: seq<Row>, bad: set<nat>): seq<Label> {
    [ReadHead(q, st)] + [AfterHead(q)] + [RunFetch(q, items)] + [AfterFetch(q, bad)]
  }

  /** A tick that nothing disturbs hands over exactly the wallet rows above the stored cursor. */
  lemma TickHandsOver(s: State, q: nat, st: Stream, items: seq<Row>, bad: set<nat>, e: Event)
    requires Inv(s) && q !in s.procs && st in s.cursor
    requires s.cursor[st] < Top(s, st) ==> Ordering(items, Between(View(s, st), s.cursor[st], Top(s, st)))
    ensures Tries(Exec(s, NextTick(q, st, items, bad)), e)
         == Tries(s, e) + if e.stream == st && e.row in View(s, st) && e.row.block > s.cursor[st] && e.row.wallet != "" then 1 else 0
  {
    TickSteps(s, q, st, items, bad);
    if s.cursor[st] < Top(s, st) {
      LastStep(s, q, st, items, bad, e);
    } else {
      assert RowsBelowTop(s);
      IdleTick(s, q, st, items, bad, e);
    }
  }

  lemma TickSteps(s: State, q: nat, st: Stream, items: seq<Row>, bad: set<nat>)
    ensures Exec(s, NextTick(q, st, items, bad))
         == Apply(Apply(Apply(Apply(s, ReadHead(q, st)), AfterHead(q)), RunFetch(q, items)), AfterFetch(q, bad))
  {
    var a := [ReadHead(q, st)];
    assert a == [] + a;
    ExecSnoc(s, [], ReadHead(q, st));
    ExecSnoc(s, a, AfterHead(q));
    ExecSnoc(s, a + [AfterHead(q)], RunFetch(q, items));
    ExecSnoc(s, a + [AfterHead(q)] + [RunFetch(q, items)], AfterFetch(q, bad));
  }

  lemma IdleTick(s: State, q: nat, st: Stream, items: seq<Row>, bad: set<nat>, e: Event)
    requires q !in s.procs && st in s.cursor && s.cursor[st] >= Top(s, st)
    ensures Tries(Apply(Apply(Apply(Apply(s, ReadHead(q, st)), AfterHead(q)), RunFetch(q, items)), AfterFetch(q, bad)), e) == Tries(s, e)
  {
    var s2 := Apply(Apply(s, ReadHead(q, st)), AfterHead(q));
    assert q !in s2.procs && s2.events == s.events && s2.lost == s.lost;
  }

  lemma LastStep(s: State, q: nat, st: Stream, items: seq<Row>, bad: set<nat>, e: Event)
    requires Inv(s) && q !in s.procs && st in s.cursor && s.cursor[st] < Top(s, st)
    requires Ordering(items, Between(View(s, st), s.cursor[st], Top(s, st)))
    ensures Tries(Apply(Apply(Apply(Apply(s, ReadHead(q, st)), AfterHead(q)), RunFetch(q, items)), AfterFetch(q, bad)), e)
         == Tries(s, e) + if e.stream == st && e.row in View(s, st) && e.row.block > s.cursor[st] && e.row.wallet != "" then 1 else 0
  {
    var s1 := Apply(s, ReadHead(q, st));
    var s2 := Apply(s1, AfterHead(q));
    StepKeepsInv(s, ReadHead(q, st));
    StepKeepsInv(s1, AfterHead(q));
    StepKeepsInv(s2, RunFetch(q, items));
    FetchedState(s, q, st, items);
    FetchedTries(s, Apply(s2, RunFetch(q, items)), q, st, items, bad, e);
  }

  lemma FetchedTries(s: State, s3: State, q: nat, st: Stream, items: seq<Row>, bad: set<nat>, e: Event)
    requires RowsBelowTop(s) && Inv(s3) && q in s3.procs && st in s.cursor && s3.procs[q] == Emit(st, s.cursor[st], Top(s, st), items)
    requires s3.view == s.view && s3.events == s.events && s3.lost == s.lost
    ensures Tries(Apply(s3, AfterFetch(q, bad)), e)
         == Tries(s, e) + if e.stream == st && e.row in View(s, st) && e.row.block > s.cursor[st] && e.row.wallet != "" then 1 else 0
  {
    StepTries(s3, AfterFetch(q, bad), e);
    assert View(s3, st) == View(s, st) && Tries(s3, e) == Tries(s, e);
  }

  lemma FetchedState(s: State, q: nat, st: Stream, items: seq<Row>)
    requires Inv(s) && q !in s.procs && st in s.cursor && s.cursor[st] < Top(s, st)
    requires Ordering(items, Between(View(s, st), s.cursor[st], Top(s, st)))
    ensures var s3 := Apply(Apply(Apply(s, ReadHead(q, st)), AfterHead(q)), RunFetch(q, items));
            && q in s3.procs && s3.procs[q] == Emit(st, s.cursor[st], Top(s, st), items)
            && s3.view == s.view && s3.events == s.events && s3.lost == s.lost
  {
  }

  /** Exactly when a death in an emit loop makes the next tick repeat a row: iff one of the k rows it had handed over
      names a wallet and lies above the stored cursor (which another tick may have moved meanwhile). */
  lemma DeathRepeatsIff(ls: seq<Label>, p: nat, bad: set<nat>, k: nat, q: nat, items: seq<Row>, bad': set<nat>)
    requires var s := Exec(Initial, ls);
             Enabled(s, Crash(p, bad, k)) && k > 0
    requires var s := Exec(Initial, ls);
             var st := s.procs[p].stream;
             st in s.cursor && (s.cursor[st] < Top(s, st) ==> Ordering(items, Between(View(s, st), s.cursor[st], Top(s, st))))
    ensures var s := Exec(Initial, ls);
            var st, rows := s.procs[p].stream, s.procs[p].items[..k];
            var s1 := Apply(s, Crash(p, bad, k));
            (exists e :: Passes(s, Crash(p, bad, k), e) && Tries(Exec(s1, NextTick(q, st, items, bad')), e) > Tries(s1, e))
            <==> exists r :: r in rows && r.wallet != "" && r.block > s.cursor[st]
  {
    var s := Exec(Initial, ls);
    var l := Crash(p, bad, k);
    var st, rows, s1 := s.procs[p].stream, s.procs[p].items[..k], Apply(s, l);
    AlwaysInv(ls);
    StepKeepsInv(s, l);
    assert ProcOk(s, s.procs[p]) && View(s1, st) == View(s, st) && Top(s1, st) == Top(s, st);
    var s5 := Exec(s1, NextTick(q, st, items, bad'));
    forall e ensures Tries(s5, e) > Tries(s1, e) <==> e.stream == st && e.row in View(s, st) && e.row.block > s.cursor[st] && e.row.wallet != "" {
      TickHandsOver(s1, q, st, items, bad', e);
    }
    forall r | r in rows ensures r in View(s, st) {
      OnceFetched(s.procs[p].items, Between(View(s, st), s.procs[p].cursor, s.procs[p].head), k, r);
    }
    if r :| r in rows && r.wallet != "" && r.block > s.cursor[st] {
      assert Passes(s, l, Event(st, r)) && Tries(s5, Event(st, r)) > Tries(s1, Event(st, r));
    }
    if e :| Passes(s, l, e) && Tries(s5, e) > Tries(s1, e) {
      assert e.row in rows;
    }
  }
}
