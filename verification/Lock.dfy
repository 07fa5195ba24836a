/** The keyed async mutex of src/utils/lock.ts.
    One `Label` is one uninterrupted stretch of JavaScript: a first call of `withLock`, a waiter resuming
    after the promise it awaited was resolved, or a body settling (the `finally` block). */
module Lock {
  import opened Basics

  type Key = string
  type Task = nat
  type Promise = nat

  datatype Status =
    | Waiting(key: Key, promise: Promise)
    | Holding(key: Key, promise: Promise)
    | Settled(ok: bool)

  /** `inflight` is the module's map, `next` numbers the promises created so far, `resolved` those released. */
  datatype State = State(inflight: map<Key, Promise>, next: Promise, resolved: set<Promise>, tasks: map<Task, Status>)

  datatype Label =
    | Call(task: Task, key: Key)
    | Resume(task: Task)
    | Settle(task: Task, ok: bool)

  const Initial := State(map[], 0, {}, map[])

  /** One evaluation of the loop guard: park on the current promise, or create and publish a new one. */
  function Enter(s: State, t: Task, key: Key): State {
    if key in s.inflight then
      s.(tasks := s.tasks[t := Waiting(key, s.inflight[key])])
    else
      s.(inflight := s.inflight[key := s.next], next := s.next + 1, tasks := s.tasks[t := Holding(key, s.next)])
  }

  predicate Enabled(s: State, l: Label) {
    match l
    case Call(t, _) => t !in s.tasks
    case Resume(t) => t in s.tasks && s.tasks[t].Waiting? && s.tasks[t].promise in s.resolved
    case Settle(t, _) => t in s.tasks && s.tasks[t].Holding?
  }

  /** A label that is not enabled changes nothing, so every label sequence is a schedule. */
  function Apply(s: State, l: Label): State {
    if !Enabled(s, l) then s else
    match l
    case Call(t, key) => Enter(s, t, key)
    case Resume(t) => Enter(s, t, s.tasks[t].key)
    case Settle(t, ok) =>
      var h := s.tasks[t];
      s.(inflight := s.inflight - {h.key}, resolved := s.resolved + {h.promise}, tasks := s.tasks[t := Settled(ok)])
  }

  function Exec(s: State, ls: seq<Label>): State {
    if ls == [] then s else Apply(Exec(s, ls[..|ls| - 1]), ls[|ls| - 1])
  }

  ghost predicate Holds(s: State, t: Task, key: Key) {
    t in s.tasks && s.tasks[t].Holding? && s.tasks[t].key == key
  }

  /** The key a task called `withLock` with. */
  function CalledWith(ls: seq<Label>, t: Task): Option<Key> {
    if ls == [] then None else
      var before, l := CalledWith(ls[..|ls| - 1], t), ls[|ls| - 1];
      if before.None? && l.Call? && l.task == t then Some(l.key) else before
  }

  /** Over every schedule, a task waits for, and holds, the key it called with. */
  lemma {:induction false} KeepsItsKey(ls: seq<Label>, t: Task)
    ensures t in Exec(Initial, ls).tasks <==> CalledWith(ls, t).Some?
    ensures t in Exec(Initial, ls).tasks && !Exec(Initial, ls).tasks[t].Settled? ==> CalledWith(ls, t) == Some(Exec(Initial, ls).tasks[t].key)
  {
    if ls != [] { KeepsItsKey(ls[..|ls| - 1], t); }
  }

  /** The published promise of a key is unresolved and is the promise of a task holding that key. */
  ghost predicate EntryOwned(s: State) {
    forall key :: key in s.inflight ==>
      && s.inflight[key] < s.next && s.inflight[key] !in s.resolved
      && exists t :: Holds(s, t, key) && s.tasks[t].promise == s.inflight[key]
  }

  ghost predicate HolderPublished(s: State) {
    forall t, key :: Holds(s, t, key) ==> key in s.inflight && s.inflight[key] == s.tasks[t].promise
  }

  ghost predicate PromisesDistinct(s: State) {
    && (forall p :: p in s.resolved ==> p < s.next)
    && (forall t, u ::
          t in s.tasks && u in s.tasks && s.tasks[t].Holding? && s.tasks[u].Holding?
          && s.tasks[t].promise == s.tasks[u].promise
          ==> t == u)
  }

  /** No waiter is stranded: its promise is resolved, or is the one its key's holder will resolve. */
  ghost predicate WaitersServed(s: State) {
    forall t :: t in s.tasks && s.tasks[t].Waiting? ==>
      || s.tasks[t].promise in s.resolved
      || (s.tasks[t].key in s.inflight && s.inflight[s.tasks[t].key] == s.tasks[t].promise)
  }

  ghost predicate Inv(s: State) {
    EntryOwned(s) && HolderPublished(s) && PromisesDistinct(s) && WaitersServed(s)
  }

  lemma EnterKeepsInv(s: State, t: Task, key: Key)
    requires Inv(s)
    requires t in s.tasks ==> s.tasks[t].Waiting?
    ensures Inv(Enter(s, t, key))
  {
    var s' := Enter(s, t, key);
    forall k | k in s'.inflight
      ensures exists u :: Holds(s', u, k) && s'.tasks[u].promise == s'.inflight[k]
    {
      if k == key && key !in s.inflight {
        assert Holds(s', t, k);
      } else {
        var u :| Holds(s, u, k) && s.tasks[u].promise == s.inflight[k];
        assert Holds(s', u, k);
      }
    }
    EnterPublishes(s, t, key);
    EnterDistinct(s, t, key);
  }

  lemma EnterPublishes(s: State, t: Task, key: Key)
    requires HolderPublished(s) && (t in s.tasks ==> s.tasks[t].Waiting?)
    ensures HolderPublished(Enter(s, t, key))
  {
    var s' := Enter(s, t, key);
    forall u, k | Holds(s', u, k) ensures k in s'.inflight && s'.inflight[k] == s'.tasks[u].promise {
      if u != t { assert Holds(s, u, k); }
    }
  }

  lemma EnterDistinct(s: State, t: Task, key: Key)
    requires Inv(s)
    ensures PromisesDistinct(Enter(s, t, key))
  {
    forall u | u in s.tasks && s.tasks[u].Holding? ensures s.tasks[u].promise < s.next {
      assert Holds(s, u, s.tasks[u].key);
    }
  }

  lemma StepKeepsInv(s: State, l: Label)
    requires Inv(s)
    ensures Inv(Apply(s, l))
  {
    if Enabled(s, l) {
      match l
      case Call(t, key) => EnterKeepsInv(s, t, key);
      case Resume(t) => EnterKeepsInv(s, t, s.tasks[t].key);
      case Settle(t, ok) =>
        var s' := Apply(s, l);
        assert Holds(s, t, s.tasks[t].key);
        forall k | k in s'.inflight
          ensures exists u :: Holds(s', u, k) && s'.tasks[u].promise == s'.inflight[k]
          ensures s'.inflight[k] !in s'.resolved
        {
          var u :| Holds(s, u, k) && s.tasks[u].promise == s.inflight[k];
          assert u != t && Holds(s', u, k);
        }
        forall u, k | Holds(s', u, k) ensures k in s'.inflight && s'.inflight[k] == s'.tasks[u].promise {
          assert Holds(s, u, k);
        }
    }
  }

  /** Every schedule keeps the invariant. */
  lemma {:induction false} AlwaysInv(ls: seq<Label>)
    ensures Inv(Exec(Initial, ls))
  {
    if ls != [] {
      AlwaysInv(ls[..|ls| - 1]);
      StepKeepsInv(Exec(Initial, ls[..|ls| - 1]), ls[|ls| - 1]);
    }
  }

  /** Over every schedule: at most one holder per key, the map entry of a key is exactly its holder's
      unresolved promise (and there is an entry only while someone holds the key). */
  lemma MutualExclusion(ls: seq<Label>, t: Task, u: Task, key: Key)
    ensures var s := Exec(Initial, ls);
            && (Holds(s, t, key) && Holds(s, u, key) ==> t == u)
            && (key in s.inflight <==> exists h :: Holds(s, h, key))
            && (Holds(s, t, key) ==> key in s.inflight && s.inflight[key] == s.tasks[t].promise
                                     && s.inflight[key] !in s.resolved)
  {
    AlwaysInv(ls);
  }

  /** No lost wake-up and no deadlock: a task that has not settled can resume, can settle, or waits for
      the settlement of a live holder of its key; a free key never has a blocked waiter. */
  lemma NobodyStranded(ls: seq<Label>, t: Task)
    requires t in Exec(Initial, ls).tasks && !Exec(Initial, ls).tasks[t].Settled?
    ensures var s := Exec(Initial, ls);
            || Enabled(s, Resume(t))
            || Enabled(s, Settle(t, false))
            || exists h :: Holds(s, h, s.tasks[t].key) && s.tasks[h].promise == s.tasks[t].promise
                           && Enabled(s, Settle(h, false))
    ensures var s := Exec(Initial, ls);
            s.tasks[t].Waiting? && s.tasks[t].key !in s.inflight ==> Enabled(s, Resume(t))
  {
    AlwaysInv(ls);
    var s := Exec(Initial, ls);
    if s.tasks[t].Waiting? && s.tasks[t].promise !in s.resolved {
      var h :| Holds(s, h, s.tasks[t].key) && s.tasks[h].promise == s.inflight[s.tasks[t].key];
    }
  }

  /** Whether its body resolves or rejects, the settling task frees the key and wakes every waiter of it. */
  lemma SettlingFreesKey(ls: seq<Label>, t: Task, ok: bool, key: Key)
    requires Holds(Exec(Initial, ls), t, key)
    ensures var s' := Apply(Exec(Initial, ls), Settle(t, ok));
            && key !in s'.inflight
            && s'.tasks[t] == Settled(ok)
            && (forall w :: w in s'.tasks && s'.tasks[w].Waiting? && s'.tasks[w].key == key ==> Enabled(s', Resume(w)))
  {
    AlwaysInv(ls);
  }

  // ---- every body that terminates lets every caller through ----

  function Unsettled(s: State): set<Task> {
    set t | t in s.tasks && !s.tasks[t].Settled?
  }

  function Stale(s: State): set<Task> {
    set t | t in s.tasks && s.tasks[t].Waiting? && s.tasks[t].promise in s.resolved
  }

  /** Between arrivals every enabled step lowers (unsettled tasks, waiters on resolved promises)
      lexicographically, so with `NobodyStranded` no schedule of finitely many calls runs forever
      or starves one of them. */
  lemma StepsTerminate(ls: seq<Label>, l: Label)
    requires Enabled(Exec(Initial, ls), l) && !l.Call?
    ensures var s := Exec(Initial, ls);
            var s' := Apply(s, l);
            || Unsettled(s') < Unsettled(s)
            || (Unsettled(s') == Unsettled(s) && Stale(s') < Stale(s))
  {
    AlwaysInv(ls);
    var s := Exec(Initial, ls);
    var s' := Apply(s, l);
    match l
    case Settle(t, ok) =>
      assert t in Unsettled(s) && t !in Unsettled(s');
      forall u | u in Unsettled(s') ensures u in Unsettled(s) {}
    case Resume(t) =>
      assert Unsettled(s') == Unsettled(s);
      assert t in Stale(s) && t !in Stale(s');
      forall u | u in Stale(s') ensures u in Stale(s) {}
  }

  /** The module-level lock table itself, one method per uninterrupted stretch. */
  class LockTable {
    var inflight: map<Key, Promise>
    var next: Promise
    ghost var resolved: set<Promise>
    ghost var tasks: map<Task, Status>

    ghost function View(): State reads this {
      State(inflight, next, resolved, tasks)
    }

    constructor ()
      ensures View() == Initial
    {
      inflight, next, resolved, tasks := map[], 0, {}, map[];
    }

    /** The loop guard and, when the key is free, the publication of a new promise.
        Returns the promise to await, or None when the lock was taken. */
    method TryEnter(t: Task, key: Key) returns (await: Option<Promise>)
      modifies this
      ensures View() == Enter(old(View()), t, key)
      ensures await == if key in old(inflight) then Some(old(inflight)[key]) else None
    {
      if key in inflight {
        tasks := tasks[t := Waiting(key, inflight[key])];
        return Some(inflight[key]);
      }
      inflight := inflight[key := next];
      tasks := tasks[t := Holding(key, next)];
      next := next + 1;
      return None;
    }

    /** The `finally` block. */
    method Finally(t: Task, key: Key, p: Promise, ok: bool)
      requires t in tasks && tasks[t] == Holding(key, p)
      modifies this
      ensures View() == Apply(old(View()), Settle(t, ok))
    {
      inflight := inflight - {key};
      resolved := resolved + {p};
      tasks := tasks[t := Settled(ok)];
    }
  }
}
