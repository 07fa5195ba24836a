/** Concrete runs of the emitter that reach the guard of `Emissions.Repeats`: two overlapping ticks, and a death
    before the cursor write. */
module ChainScenes {
  import opened ChainEvents

  const R: Row := Row("k", 7, "0xab")
  const E: Event := Event(BondMinted, R)
  const Asked: Proc := Fetch(BondMinted, 5, 7)
  const Loaded: Proc := Emit(BondMinted, 5, 7, [R])

  /** First cursor 5, row `R` at block 7 indexed, calls `ps` in flight. */
  function Scene(ps: map<nat, Proc>, cursor: nat, events: seq<Event>, torn: set<Event>): State {
    State(map[BondMinted := {R}], map[BondMinted := 7], map[BondMinted := cursor], events, ps, [],
          map[BondMinted := 5], map[BondMinted := cursor], torn)
  }

  function Opening(): seq<Label> {
    [] + [Index(BondMinted, {}, 5)] + [ReadHead(0, BondMinted)] + [AfterHead(0)] + [Index(BondMinted, {R}, 7)]
  }

  lemma OpeningScene()
    ensures Exec(Initial, Opening()) == Scene(map[], 5, [], {})
  {
    var a := [] + [Index(BondMinted, {}, 5)];
    var b := a + [ReadHead(0, BondMinted)];
    var c := b + [AfterHead(0)];
    ExecSnoc(Initial, [], Index(BondMinted, {}, 5));
    ExecSnoc(Initial, a, ReadHead(0, BondMinted));
    ExecSnoc(Initial, b, AfterHead(0));
    ExecSnoc(Initial, c, Index(BondMinted, {R}, 7));
    var s := Exec(Initial, a);
    assert View(s, BondMinted) == {} && Top(s, BondMinted) == 5;
    s := Exec(Initial, b);
    assert s.procs == map[0 := Decide(BondMinted, 5)];
    s := Exec(Initial, c);
    assert s.procs == map[] && s.cursor == map[BondMinted := 5];
    assert View(s, BondMinted) + {R} == {R};
  }

  /** The run has no failed step and, unless `dying`, no death. */
  predicate Plain(a: seq<Label>, dying: bool) {
    forall l :: l in a ==> !l.CursorFails? && !l.QueryFails? && (l.Crash? ==> dying)
  }

  /** A tick up to the call of fetch. */
  lemma Ask(a: seq<Label>, p: nat, ps: map<nat, Proc>, events: seq<Event>, torn: set<Event>, dying: bool) returns (b: seq<Label>)
    requires Exec(Initial, a) == Scene(ps, 5, events, torn) && p !in ps && Plain(a, dying)
    ensures Exec(Initial, b) == Scene(ps[p := Asked], 5, events, torn) && Plain(b, dying)
  {
    b := a + [ReadHead(p, BondMinted)];
    ExecSnoc(Initial, a, ReadHead(p, BondMinted));
    assert Exec(Initial, b) == Scene(ps[p := Decide(BondMinted, 7)], 5, events, torn);
    ExecSnoc(Initial, b, AfterHead(p));
    assert ps[p := Decide(BondMinted, 7)][p := Asked] == ps[p := Asked];
    b := b + [AfterHead(p)];
  }

  lemma Load(a: seq<Label>, p: nat, ps: map<nat, Proc>, events: seq<Event>, torn: set<Event>, dying: bool) returns (b: seq<Label>)
    requires Exec(Initial, a) == Scene(ps, 5, events, torn) && p in ps && ps[p] == Asked && Plain(a, dying)
    ensures Exec(Initial, b) == Scene(ps[p := Loaded], 5, events, torn) && Plain(b, dying)
  {
    ExecSnoc(Initial, a, RunFetch(p, [R]));
    OneRow();
    b := a + [RunFetch(p, [R])];
  }

  lemma Finish(a: seq<Label>, p: nat, ps: map<nat, Proc>, cursor: nat, events: seq<Event>, torn: set<Event>, dying: bool)
    returns (b: seq<Label>)
    requires Exec(Initial, a) == Scene(ps, cursor, events, torn) && p in ps && ps[p] == Loaded && cursor <= 7 && Plain(a, dying)
    ensures Exec(Initial, b) == Scene(ps - {p}, 7, events + [E], torn) && Plain(b, dying)
  {
    ExecSnoc(Initial, a, AfterFetch(p, {}));
    OneRow();
    b := a + [AfterFetch(p, {})];
  }

  lemma Die(a: seq<Label>, p: nat, ps: map<nat, Proc>) returns (b: seq<Label>)
    requires Exec(Initial, a) == Scene(ps, 5, [], {}) && p in ps && ps[p] == Loaded && Plain(a, true)
    ensures Exec(Initial, b) == Scene(map[], 5, [E], {E}) && Plain(b, true)
  {
    ExecSnoc(Initial, a, Crash(p, {}, 1));
    OneRow();
    assert [R][..1] == [R];
    assert [R][0] == R;
    assert Named(BondMinted, [R]) == {E};
    b := a + [Crash(p, {}, 1)];
  }

  lemma OneRow()
    ensures Ordering([R], Between({R}, 5, 7))
    ensures Emitted(BondMinted, [R], {}) == [E] && Swallowed(BondMinted, [R], {}) == []
  {
    assert Between({R}, 5, 7) == {R};
    assert [R][..0] == [];
  }

  lemma BothLoaded() returns (run: seq<Label>)
    ensures Exec(Initial, run) == Scene(map[1 := Loaded, 2 := Loaded], 5, [], {}) && Plain(run, false)
  {
    OpeningScene();
    run := Ask(Opening(), 1, map[], [], {}, false);
    run := Ask(run, 2, map[1 := Asked], [], {}, false);
    assert map[1 := Asked][2 := Asked] == map[1 := Asked, 2 := Asked];
    run := Load(run, 1, map[1 := Asked, 2 := Asked], [], {}, false);
    assert map[1 := Asked, 2 := Asked][1 := Loaded] == map[1 := Loaded, 2 := Asked];
    run := Load(run, 2, map[1 := Loaded, 2 := Asked], [], {}, false);
    assert map[1 := Loaded, 2 := Asked][2 := Loaded] == map[1 := Loaded, 2 := Loaded];
  }

  /** Two ticks in flight at once, with no crash and no failure, emit the row twice. */
  lemma OverlapDuplicates() returns (run: seq<Label>)
    ensures Exec(Initial, run).events == [E, E] && Plain(run, false)
  {
    run := BothLoaded();
    run := Finish(run, 1, map[1 := Loaded, 2 := Loaded], 5, [], {}, false);
    assert map[1 := Loaded, 2 := Loaded] - {1} == map[2 := Loaded];
    run := Finish(run, 2, map[2 := Loaded], 7, [] + [E], {}, false);
  }

  /** So does a process that dies between the emit loop and the cursor write, with no overlap at all. The second
      event is a new row, so its deliveries carry ids a receiver has not seen. */
  lemma CrashDuplicates() returns (run: seq<Label>)
    ensures Exec(Initial, run).events == [E, E] && Plain(run, true)
  {
    OpeningScene();
    run := Ask(Opening(), 1, map[], [], {}, true);
    run := Load(run, 1, map[1 := Asked], [], {}, true);
    assert map[1 := Asked][1 := Loaded] == map[1 := Loaded];
    run := Die(run, 1, map[1 := Loaded]);
    run := Ask(run, 2, map[], [E], {E}, true);
    run := Load(run, 2, map[2 := Asked], [E], {E}, true);
    assert map[2 := Asked][2 := Loaded] == map[2 := Loaded];
    run := Finish(run, 2, map[2 := Loaded], 5, [E], {E}, true);
  }
}
