/** The idempotency path of POST / in src/routes/policies.ts over the idempotency and policies tables of
    src/db/database.ts. One `Label` is one stretch of JavaScript between two awaits. */
module Idempotency {
  import opened Basics

  const TTL_MS: nat := 604_800_000

  /** The text of a JSON object is never empty, hence never falsy. */
  type Json = s: string | s != "" witness "{}"

  /** An idempotency row; created_at has whole-second precision. */
  datatype Row = Row(agent: nat, body: Json, created: nat)

  datatype Request =
    | InFlight(key: string, agent: nat)
    | Answered(body: string)
    | Failed

  /** `policies` is UNIQUE(product_id, policy_id). `submitted` (purchases handed to the relayer), `saved`
      (responses of completed purchases) and `served` (responses answered from a row) are history. */
  datatype State = State(
    rows: map<string, Row>,
    policies: set<(string, nat)>,
    requests: map<nat, Request>,
    clock: nat,
    submitted: seq<(string, nat)>,
    saved: set<(string, nat, string)>,
    served: set<(string, nat, string)>)

  datatype Label =
    | Tick(ms: nat)
    | Start(r: nat, key: string, agent: nat)                     // up to the call of purchaseViaRelayer
    | Finish(r: nat, product: string, policy: nat, body: Json)   // the purchase succeeded
    | Reject(r: nat)                                             // it threw
    | Sweep
    | Restart                                                    // the process dies and comes back

  const Initial := State(map[], {}, map[], 0, [], {}, {})

  /** findIdempotency: WHERE key = ? AND agent_id = ?. */
  function Find(rows: map<string, Row>, key: string, agent: nat): Option<Json> {
    if key in rows && rows[key].agent == agent then Some(rows[key].body) else None
  }

  function Apply(s: State, l: Label): State {
    match l
    case Tick(ms) => if s.clock <= ms then s.(clock := ms) else s
    case Start(r, key, agent) =>
      if r in s.requests then s else
      var cached := if key != "" then Find(s.rows, key, agent) else None;
      if cached.Some? then
        s.(requests := s.requests[r := Answered(cached.value)], served := s.served + {(key, agent, cached.value)})
      else
        s.(requests := s.requests[r := InFlight(key, agent)], submitted := s.submitted + [(key, agent)])
    case Finish(r, product, policy, body) =>
      if !(r in s.requests && s.requests[r].InFlight?) then s else
      if (product, policy) in s.policies then s.(requests := s.requests[r := Failed]) else
      var q := s.requests[r];
      var s1 := s.(policies := s.policies + {(product, policy)}, requests := s.requests[r := Answered(body)],
                   saved := s.saved + {(q.key, q.agent, body)});
      if q.key == "" || q.key in s.rows then s1
      else s1.(rows := s.rows[q.key := Row(q.agent, body, s.clock / 1000 * 1000)])
    case Reject(r) =>
      if r in s.requests && s.requests[r].InFlight? then s.(requests := s.requests[r := Failed]) else s
    case Restart =>
      s.(requests := map r | r in s.requests :: if s.requests[r].InFlight? then Failed else s.requests[r])
    case Sweep => s.(rows := map k | k in s.rows && s.rows[k].created >= s.clock - TTL_MS :: s.rows[k])
  }

  function Exec(s: State, ls: seq<Label>): State {
    if ls == [] then s else Apply(Exec(s, ls[..|ls| - 1]), ls[|ls| - 1])
  }

  /** A row is never overwritten; only a sweep removes it, and a sweep removes exactly the rows older than 7 days. */
  lemma RowsOnlySwept(s: State, l: Label, key: string)
    requires key in s.rows
    ensures var s' := Apply(s, l);
            && (key in s'.rows ==> s'.rows[key] == s.rows[key])
            && (key !in s'.rows <==> l.Sweep? && s.clock - s.rows[key].created > 604_800_000)
  {
  }

  lemma ClockForward(s: State, l: Label)
    ensures s.clock <= Apply(s, l).clock
  {
  }

  /** A stored row survives, unchanged, every run whose clock stays within 7 days of it. */
  lemma {:induction false} RowSurvives(s: State, ls: seq<Label>, key: string)
    requires key in s.rows && Exec(s, ls).clock <= s.rows[key].created + 604_800_000
    ensures key in Exec(s, ls).rows && Exec(s, ls).rows[key] == s.rows[key]
  {
    if ls != [] {
      var n := |ls| - 1;
      ClockForward(Exec(s, ls[..n]), ls[n]);
      RowSurvives(s, ls[..n], key);
      RowsOnlySwept(Exec(s, ls[..n]), ls[n], key);
    }
  }

  /** The key is still stored after every step of the run. */
  predicate Kept(s: State, ls: seq<Label>, key: string) {
    key in Exec(s, ls).rows && (ls != [] ==> Kept(s, ls[..|ls| - 1], key))
  }

  lemma {:induction false} KeptUnchanged(s: State, ls: seq<Label>, key: string)
    requires Kept(s, ls, key)
    ensures key in s.rows && Exec(s, ls).rows[key] == s.rows[key]
  {
    if ls != [] {
      KeptUnchanged(s, ls[..|ls| - 1], key);
      RowsOnlySwept(Exec(s, ls[..|ls| - 1]), ls[|ls| - 1], key);
    }
  }

  /** Until a sweep removes the row, over every run: a request by its agent with its key is answered with its
      body and submits no purchase; a request by any other agent with that key is not answered from it
      (it submits), and its save is ignored. */
  lemma {:induction false} UntilSwept(s: State, ls: seq<Label>, key: string, r: nat, agent: nat)
    requires Kept(s, ls, key) && key != "" && key in s.rows && r !in Exec(s, ls).requests
    ensures var s1, s2 := Exec(s, ls), Apply(Exec(s, ls), Start(r, key, agent));
            && (agent == s.rows[key].agent ==> s2.requests[r] == Answered(s.rows[key].body) && s2.submitted == s1.submitted)
            && (agent != s.rows[key].agent ==> s2.requests[r] == InFlight(key, agent) && s2.submitted == s1.submitted + [(key, agent)]
                                               && s2.served == s1.served)
            && (forall product, policy, body :: Apply(s2, Finish(r, product, policy, body)).rows == s1.rows)
  {
    KeptUnchanged(s, ls, key);
  }

  /** Nor is a purchase whose process dies before the save: whether it went through or not, the request is dropped and, when no
      row is stored yet, a retry submits again. */
  lemma DeathNotDeduplicated(s: State, key: string, agent: nat, r: nat, r': nat)
    requires key !in s.rows && r in s.requests && s.requests[r] == InFlight(key, agent) && r' !in s.requests
    ensures var s1 := Apply(s, Restart);
            && s1.requests[r] == Failed && s1.rows == s.rows
            && (forall product, policy, body :: Apply(s1, Finish(r, product, policy, body)) == s1)
            && Apply(s1, Start(r', key, agent)).submitted == s.submitted + [(key, agent)]
  {
  }

  lemma {:induction false} SweepFreeKeeps(s: State, ls: seq<Label>, key: string)
    requires key in s.rows && forall l :: l in ls ==> !l.Sweep?
    ensures Kept(s, ls, key)
  {
    if ls != [] {
      var init, l := ls[..|ls| - 1], ls[|ls| - 1];
      assert l in ls && forall x :: x in init ==> x in ls;
      SweepFreeKeeps(s, init, key);
      RowsOnlySwept(Exec(s, init), l, key);
    }
  }

  /** Exactly when a completed request is not protected: after a purchase completed under a key, and until a sweep, a
      request by the same agent with that key submits again iff, when the purchase completed, another agent's row
      already held the key; otherwise it is answered from the row. */
  lemma RetryResubmitsIff(s: State, r: nat, key: string, agent: nat, product: string, policy: nat, body: Json, ls: seq<Label>, r': nat)
    requires r in s.requests && s.requests[r] == InFlight(key, agent) && key != "" && (product, policy) !in s.policies
    requires forall l :: l in ls ==> !l.Sweep?
    requires r' !in Exec(Apply(s, Finish(r, product, policy, body)), ls).requests
    ensures var s1 := Exec(Apply(s, Finish(r, product, policy, body)), ls);
            var s2 := Apply(s1, Start(r', key, agent));
            && (s2.submitted == s1.submitted + [(key, agent)] <==> key in s.rows && s.rows[key].agent != agent)
            && (!(key in s.rows && s.rows[key].agent != agent) ==>
                  s2.submitted == s1.submitted && s2.requests[r'] == Answered(if key in s.rows then s.rows[key].body else body))
  {
    var done := Apply(s, Finish(r, product, policy, body));
    SweepFreeKeeps(done, ls, key);
    UntilSwept(done, ls, key, r', agent);
    assert Exec(done, ls).submitted != Exec(done, ls).submitted + [(key, agent)];
  }

  /** Over every run: whatever is served to an agent under a key is the response of a purchase that same agent
      completed under that key. */
  lemma {:induction false} ServedIsOwn(ls: seq<Label>)
    ensures var s := Exec(Initial, ls);
            && s.served <= s.saved
            && forall k :: k in s.rows ==> (k, s.rows[k].agent, s.rows[k].body) in s.saved
  {
    if ls != [] {
      ServedIsOwn(ls[..|ls| - 1]);
      var s, s' := Exec(Initial, ls[..|ls| - 1]), Exec(Initial, ls);
      forall k | k in s'.rows ensures (k, s'.rows[k].agent, s'.rows[k].body) in s'.saved {
        if k in s.rows { RowsOnlySwept(s, ls[|ls| - 1], k); }
      }
    }
  }

  /** A key is kept for seven days from its response: with c the clock when the purchase completed, a run that stays within
      c + 604,799,000 ms, sweeps included, ends with a retry by its agent answered from the row and nothing submitted,
      and a sweep once the clock is past c + 604,800,000 ms has no row of it. */
  lemma KeptSevenDays(s: State, r: nat, key: string, agent: nat, product: string, policy: nat, body: Json, ls: seq<Label>, r': nat)
    requires r in s.requests && s.requests[r] == InFlight(key, agent) && key != "" && (product, policy) !in s.policies && key !in s.rows
    ensures var s1 := Apply(s, Finish(r, product, policy, body));
            && s1.requests[r] == Answered(body)
            && key in s1.rows && s1.rows[key].agent == agent && s1.rows[key].body == body
            && s.clock - 1000 < s1.rows[key].created <= s.clock
    ensures var s2 := Exec(Apply(s, Finish(r, product, policy, body)), ls);
            s2.clock <= s.clock + 604_799_000 && r' !in s2.requests ==>
              && Apply(s2, Start(r', key, agent)).requests[r'] == Answered(body)
              && Apply(s2, Start(r', key, agent)).submitted == s2.submitted
    ensures var s2 := Exec(Apply(s, Finish(r, product, policy, body)), ls);
            s2.clock > s.clock + 604_800_000 && key in s2.rows && s2.rows[key] == Apply(s, Finish(r, product, policy, body)).rows[key] ==>
              key !in Apply(s2, Sweep).rows
  {
    var s1 := Apply(s, Finish(r, product, policy, body));
    if Exec(s1, ls).clock <= s.clock + 604_799_000 { RowSurvives(s1, ls, key); }
    if key in Exec(s1, ls).rows { RowsOnlySwept(Exec(s1, ls), Sweep, key); }
  }

  lemma {:induction false} PairsStay(s: State, ls: seq<Label>, pair: (string, nat))
    requires pair in s.policies
    ensures pair in Exec(s, ls).policies
  {
    if ls != [] { PairsStay(s, ls[..|ls| - 1], pair); }
  }

  /** A policy is recorded once: after a purchase completed, whatever happens, another request reporting the same product and
      policy id fails and saves nothing. */
  lemma RecordedOnce(s: State, r: nat, product: string, policy: nat, body: Json, ls: seq<Label>, r': nat, body': Json)
    requires r in s.requests && s.requests[r].InFlight? && (product, policy) !in s.policies
    ensures var s1 := Exec(Apply(s, Finish(r, product, policy, body)), ls);
            var s2 := Apply(s1, Finish(r', product, policy, body'));
            && (r' in s1.requests && s1.requests[r'].InFlight? ==> s2.requests[r'] == Failed)
            && s2.rows == s1.rows && s2.policies == s1.policies
  {
    PairsStay(Apply(s, Finish(r, product, policy, body)), ls, (product, policy));
  }

  /** A purchase that throws is answered as failed, stores nothing, and lets a retry submit. */
  lemma RejectedStoresNothing(s: State, r: nat, r': nat, key: string, agent: nat)
    requires r in s.requests && s.requests[r] == InFlight(key, agent) && r' !in s.requests
    requires key == "" || key !in s.rows
    ensures var s1 := Apply(s, Reject(r));
            && s1.requests[r] == Failed && s1.rows == s.rows && s1.policies == s.policies && s1.submitted == s.submitted
            && Apply(s1, Start(r', key, agent)).submitted == s.submitted + [(key, agent)]
            && Apply(s1, Start(r', key, agent)).requests[r'] == InFlight(key, agent)
  {
  }

  // ---- whose response it is, read off the requests ----

  /** The key and the agent a request began with. */
  function BeganAs(ls: seq<Label>, r: nat): Option<(string, nat)> {
    if ls == [] then None else
      var before, l := BeganAs(ls[..|ls| - 1], r), ls[|ls| - 1];
      if before.None? && l.Start? && l.r == r then Some((l.key, l.agent)) else before
  }

  /** Step n completed a purchase with this response, for a request begun by this agent under this key. */
  ghost predicate CompletedAt(ls: seq<Label>, n: nat, key: string, agent: nat, body: string) {
    n < |ls| && ls[n].Finish? && ls[n].body == body && BeganAs(ls[..n], ls[n].r) == Some((key, agent))
  }

  ghost predicate Completed(ls: seq<Label>, key: string, agent: nat, body: string) {
    exists n: nat :: CompletedAt(ls, n, key, agent, body)
  }

  ghost predicate Owned(ls: seq<Label>, s: State, r: nat) {
    && (r in s.requests <==> BeganAs(ls, r).Some?)
    && (r in s.requests && s.requests[r].InFlight? ==> BeganAs(ls, r) == Some((s.requests[r].key, s.requests[r].agent)))
    && (r in s.requests && s.requests[r].Answered? ==> Completed(ls, BeganAs(ls, r).value.0, BeganAs(ls, r).value.1, s.requests[r].body))
  }

  ghost predicate AllOwned(ls: seq<Label>) {
    && (forall r :: Owned(ls, Exec(Initial, ls), r))
    && (forall k :: k in Exec(Initial, ls).rows ==> Completed(ls, k, Exec(Initial, ls).rows[k].agent, Exec(Initial, ls).rows[k].body))
  }

  lemma CompletedStays(init: seq<Label>, l: Label, key: string, agent: nat, body: string)
    requires Completed(init, key, agent, body)
    ensures Completed(init + [l], key, agent, body)
  {
    var n: nat :| CompletedAt(init, n, key, agent, body);
    assert (init + [l])[..n] == init[..n] && (init + [l])[n] == init[n];
    assert CompletedAt(init + [l], n, key, agent, body);
  }

  lemma CompletesNow(init: seq<Label>, l: Label, key: string, agent: nat)
    requires l.Finish? && BeganAs(init, l.r) == Some((key, agent))
    ensures Completed(init + [l], key, agent, l.body)
  {
    assert (init + [l])[..|init|] == init;
    assert CompletedAt(init + [l], |init|, key, agent, l.body);
  }

  /** What a step does to one request. */
  lemma RequestStep(s: State, l: Label, r: nat)
    ensures var s' := Apply(s, l);
            && (r in s'.requests <==> r in s.requests || (l.Start? && l.r == r))
            && (r in s.requests && s'.requests[r] != s.requests[r] ==>
                  s'.requests[r].Failed? || (l.Finish? && l.r == r && s.requests[r].InFlight? && s'.requests[r] == Answered(l.body)))
            && (r !in s.requests && r in s'.requests ==>
                  || s'.requests[r] == InFlight(l.key, l.agent)
                  || (l.key in s.rows && s.rows[l.key].agent == l.agent && s'.requests[r] == Answered(s.rows[l.key].body)))
  {
  }

  lemma RowStep(s: State, l: Label, k: string)
    requires k in Apply(s, l).rows
    ensures (k in s.rows && Apply(s, l).rows[k] == s.rows[k])
            || (l.Finish? && l.r in s.requests && s.requests[l.r].InFlight? && s.requests[l.r].key == k
                && Apply(s, l).rows[k].agent == s.requests[l.r].agent && Apply(s, l).rows[k].body == l.body)
  {
  }

  lemma OwnedStep(init: seq<Label>, l: Label, r: nat)
    requires AllOwned(init)
    ensures Owned(init + [l], Exec(Initial, init + [l]), r)
  {
    var s, ls := Exec(Initial, init), init + [l];
    assert ls[..|ls| - 1] == init;
    var s' := Exec(Initial, ls);
    assert Owned(init, s, r);
    RequestStep(s, l, r);
    if r in s'.requests && s'.requests[r].Answered? {
      var who := BeganAs(ls, r).value;
      if l.Finish? && l.r == r && r in s.requests && s.requests[r].InFlight? {
        CompletesNow(init, l, who.0, who.1);
      } else {
        CompletedStays(init, l, who.0, who.1, s'.requests[r].body);
      }
    }
  }

  lemma {:induction false} AlwaysOwned(ls: seq<Label>)
    ensures AllOwned(ls)
  {
    if ls != [] {
      var init, l := ls[..|ls| - 1], ls[|ls| - 1];
      assert ls == init + [l];
      AlwaysOwned(init);
      forall r ensures Owned(ls, Exec(Initial, ls), r) { OwnedStep(init, l, r); }
      var s, s' := Exec(Initial, init), Exec(Initial, ls);
      forall k | k in s'.rows ensures Completed(ls, k, s'.rows[k].agent, s'.rows[k].body) {
        RowStep(s, l, k);
        if k in s.rows && s'.rows[k] == s.rows[k] {
          CompletedStays(init, l, k, s.rows[k].agent, s.rows[k].body);
        } else {
          assert Owned(init, s, l.r);
          CompletesNow(init, l, k, s'.rows[k].agent);
        }
      }
    }
  }

  /** Over every run, a request that has its answer got the response of a purchase completed by a request of its own agent
      under its own key, itself or an earlier one; a stored row is such a response too. */
  lemma AnswersAreOwn(ls: seq<Label>, r: nat, key: string)
    ensures var s := Exec(Initial, ls);
            && (r in s.requests && s.requests[r].Answered? ==>
                  BeganAs(ls, r).Some? && Completed(ls, BeganAs(ls, r).value.0, BeganAs(ls, r).value.1, s.requests[r].body))
            && (key in s.rows ==> Completed(ls, key, s.rows[key].agent, s.rows[key].body))
  {
    AlwaysOwned(ls);
    assert Owned(ls, Exec(Initial, ls), r);
  }

  /** Not deduplicated: whatever the run, when no row is stored yet two requests in flight together under one key
      both submit a purchase. */
  lemma InFlightNotDeduplicated(s: State, key: string, agent: nat, r: nat, r': nat)
    requires key !in s.rows && r !in s.requests && r' !in s.requests && r != r'
    ensures Apply(Apply(s, Start(r, key, agent)), Start(r', key, agent)).submitted
            == s.submitted + [(key, agent), (key, agent)]
  {
    assert s.submitted + [(key, agent)] + [(key, agent)] == s.submitted + [(key, agent), (key, agent)];
  }

  /** Nor is a retry after a purchase that went through but whose policy row was refused by UNIQUE(product_id,
      policy_id): the row is never saved, so the retry submits again. */
  lemma RefusedPolicyNotDeduplicated(s: State, key: string, agent: nat, r: nat, r': nat, product: string, policy: nat, body: Json)
    requires key !in s.rows && r !in s.requests && r' !in s.requests && r != r' && (product, policy) in s.policies
    ensures var s1 := Apply(Apply(s, Start(r, key, agent)), Finish(r, product, policy, body));
            s1.requests[r] == Failed && Apply(s1, Start(r', key, agent)).submitted == s.submitted + [(key, agent), (key, agent)]
  {
    assert s.submitted + [(key, agent)] + [(key, agent)] == s.submitted + [(key, agent), (key, agent)];
  }

  /** The table. */
  class Table {
    var rows: map<string, Row>

    constructor ()
      ensures rows == map[]
    {
      rows := map[];
    }

    method FindIdempotency(key: string, agent: nat) returns (r: Option<Json>)
      ensures r.Some? <==> key in rows && rows[key].agent == agent
      ensures r.Some? ==> r.value == rows[key].body
    {
      r := Find(rows, key, agent);
    }

    /** INSERT OR IGNORE. */
    method SaveIdempotency(key: string, agent: nat, body: Json, now: nat)
      modifies this
      ensures rows == if key in old(rows) then old(rows) else old(rows)[key := Row(agent, body, now / 1000 * 1000)]
    {
      if key !in rows {
        rows := rows[key := Row(agent, body, now / 1000 * 1000)];
      }
    }

    method SweepIdempotency(now: nat) returns (deleted: nat)
      modifies this
      ensures rows == map k | k in old(rows) && old(rows)[k].created + 604_800_000 >= now :: old(rows)[k]
      ensures deleted == |old(rows)| - |rows|
    {
      var cutoff: int := now - TTL_MS;
      var kept := map k | k in rows && rows[k].created >= cutoff :: rows[k];
      assert kept.Keys <= rows.Keys;
      assert |rows.Keys| == |kept.Keys| + |rows.Keys - kept.Keys|;
      deleted := |rows| - |kept|;
      rows := kept;
    }
  }

  /** The handler of POST / itself, before and after its await of purchaseViaRelayer. */
  class PolicyRoute {
    const table: Table
    var policies: set<(string, nat)>
    ghost var requests: map<nat, Request>
    ghost var clock: nat
    ghost var submitted: seq<(string, nat)>
    ghost var saved: set<(string, nat, string)>
    ghost var served: set<(string, nat, string)>

    ghost function View(): State reads this, table {
      State(table.rows, policies, requests, clock, submitted, saved, served)
    }

    constructor ()
      ensures View() == Initial && fresh(table)
    {
      table := new Table();
      policies, requests, clock, submitted, saved, served := {}, map[], 0, [], {}, {};
    }

    /** The stored body to answer with, or None when the purchase is submitted. An empty key is no key. */
    method Begin(ghost r: nat, key: string, agent: nat) returns (answer: Option<Json>)
      requires r !in requests
      modifies this
      ensures View() == Apply(old(View()), Start(r, key, agent))
      ensures requests[r] == if answer.Some? then Answered(answer.value) else InFlight(key, agent)
    {
      if key != "" {
        var cached := table.FindIdempotency(key, agent);
        if cached.Some? {
          requests := requests[r := Answered(cached.value)];
          served := served + {(key, agent, cached.value)};
          return cached;
        }
      }
      requests := requests[r := InFlight(key, agent)];
      submitted := submitted + [(key, agent)];
      return None;
    }

    /** recordPolicy, which may throw on its UNIQUE constraint, and then saveIdempotency. */
    method End(ghost r: nat, key: string, agent: nat, product: string, policy: nat, body: Json, now: nat) returns (ok: bool)
      requires r in requests && requests[r] == InFlight(key, agent) && now == clock
      modifies this, table
      ensures View() == Apply(old(View()), Finish(r, product, policy, body))
      ensures requests[r] == if ok then Answered(body) else Failed
    {
      if (product, policy) in policies {
        requests := requests[r := Failed];
        return false;
      }
      policies := policies + {(product, policy)};
      if key != "" {
        table.SaveIdempotency(key, agent, body, now);
      }
      requests := requests[r := Answered(body)];
      saved := saved + {(key, agent, body)};
      return true;
    }
  }
}
