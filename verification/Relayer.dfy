/** Every request that signs from the relayer wallet: faucet claims (src/routes/faucet.ts) and policy
    purchases (src/services/policies.ts), both inside `withLock(RELAYER_TX_LOCK_KEY, ...)`.
    The machine composes the lock with the bodies; a body step is one stretch between two awaits. */
module Relayer {
  import opened Basics
  import Lock
  import opened Claims
  import opened Nonces

  const RELAYER_TX_LOCK_KEY: string := "relayer-tx-global"

  datatype Request =
    | Claim(wallet: string, ip: string)
    | Purchase

  datatype Tx = Mint | Eth | Buy

  /** Where a body stands. `at` is the claim's own reading of the clock, in seconds. */
  datatype Phase =
    | Fresh
    | Passed(at: nat)
    | Sent(tx: Tx)
    | Mined(tx: Tx)
    | Recorded
    | Thrown

  datatype Job = Job(request: Request, phase: Phase)

  /** `pending` is the nonce the next send reads; `clock` is Date.now() in milliseconds. */
  datatype State = State(
    lock: Lock.State,
    jobs: map<Lock.Task, Job>,
    pending: nat,
    sends: seq<Send>,
    claims: seq<ClaimRow>,
    clock: nat)

  datatype Label =
    | Tick(ms: nat)                            // time passes
    | Arrive(task: Lock.Task, request: Request)
    | Wake(task: Lock.Task)
    | Check(task: Lock.Task, later: nat)       // the cap reads the clock `later` ms after the cooldowns' `now`
    | Broadcast(task: Lock.Task)               // sign and send, reading the pending nonce
    | Confirm(task: Lock.Task, good: bool)     // mined: the nonce advances, the receipt is good or reverted
    | LateConfirm(i: nat)                      // a send whose `wait()` rejected is mined after all
    | Record(task: Lock.Task)                  // insertClaim
    | Throw(task: Lock.Task)                   // any awaited call rejects
    | Leave(task: Lock.Task)                   // the body settled: the `finally` block

  function Initial(nonce: nat): State {
    State(Lock.Initial, map[], nonce, [], [], 0)
  }

  // ---- the machine ----

  predicate HoldsKey(s: State, t: Lock.Task) {
    && t in s.lock.tasks && s.lock.tasks[t].Holding? && s.lock.tasks[t].key == RELAYER_TX_LOCK_KEY
    && t in s.jobs
  }

  /** The transaction the body sends next, if it is about to send one. */
  function NextTx(j: Job): Option<Tx> {
    if j.request.Purchase? && j.phase.Fresh? then Some(Buy)
    else if j.request.Claim? && j.phase.Passed? then Some(Mint)
    else if j.request.Claim? && j.phase == Mined(Mint) then Some(Eth)
    else None
  }

  predicate Finished(j: Job) {
    j.phase.Recorded? || j.phase.Thrown? || j.phase == Mined(Buy)
  }

  predicate Enabled(s: State, l: Label) {
    match l
    case Tick(ms) => s.clock <= ms
    case Arrive(t, _) => t !in s.jobs && t !in s.lock.tasks
    case Wake(t) => Lock.Enabled(s.lock, Lock.Resume(t))
    case Check(t, _) => HoldsKey(s, t) && s.jobs[t].request.Claim? && s.jobs[t].phase.Fresh?
    case Broadcast(t) => HoldsKey(s, t) && NextTx(s.jobs[t]).Some?
    case Confirm(t, _) =>
      HoldsKey(s, t) && s.jobs[t].phase.Sent? && s.sends != [] && s.sends[|s.sends| - 1].nonce == s.pending
    case LateConfirm(i) => i < |s.sends| && s.sends[i].outcome.Abandoned? && s.sends[i].nonce == s.pending
    case Record(t) => HoldsKey(s, t) && s.jobs[t].request.Claim? && s.jobs[t].phase == Mined(Eth)
    case Throw(t) => HoldsKey(s, t) && !Finished(s.jobs[t]) && (s.jobs[t].phase.Sent? ==> s.sends != [])
    case Leave(t) => HoldsKey(s, t) && Finished(s.jobs[t])
  }

  function SetPhase(s: State, t: Lock.Task, p: Phase): State
    requires t in s.jobs
  {
    s.(jobs := s.jobs[t := s.jobs[t].(phase := p)])
  }

  function Apply(s: State, l: Label): State {
    if !Enabled(s, l) then s else
    match l
    case Tick(ms) => s.(clock := ms)
    case Arrive(t, r) =>
      s.(lock := Lock.Apply(s.lock, Lock.Call(t, RELAYER_TX_LOCK_KEY)), jobs := s.jobs[t := Job(r, Fresh)])
    case Wake(t) => s.(lock := Lock.Apply(s.lock, Lock.Resume(t)))
    case Check(t, later) =>
      var s1 := s.(clock := s.clock + later);
      var r := s.jobs[t].request;
      SetPhase(s1, t, if Allowed(s.claims, r.wallet, r.ip, s.clock / 1000, s1.clock / 1000)
                      then Passed(s.clock / 1000) else Thrown)
    case Broadcast(t) =>
      SetPhase(s, t, Sent(NextTx(s.jobs[t]).value)).(sends := s.sends + [Send(s.pending, Outstanding, 0)])
    case Confirm(t, good) =>
      SetPhase(s, t, if good then Mined(s.jobs[t].phase.tx) else Thrown).(
        pending := s.pending + 1, sends := CloseSend(s.sends, Confirmed))
    case LateConfirm(i) =>
      s.(pending := s.pending + 1, sends := s.sends[i := s.sends[i].(outcome := Confirmed, mined := |s.sends|)])
    case Record(t) =>
      var r := s.jobs[t].request;
      SetPhase(s, t, Recorded).(claims := s.claims + [ClaimRow(r.wallet, r.ip, s.clock / 1000)])
    case Throw(t) =>
      SetPhase(s, t, Thrown).(
        sends := if s.jobs[t].phase.Sent? then CloseSend(s.sends, Abandoned) else s.sends)
    case Leave(t) =>
      s.(lock := Lock.Apply(s.lock, Lock.Settle(t, !s.jobs[t].phase.Thrown?)))
  }

  function Exec(s: State, ls: seq<Label>): State {
    if ls == [] then s else Apply(Exec(s, ls[..|ls| - 1]), ls[|ls| - 1])
  }

  // ---- what every interleaving keeps ----

  /** A job has started only if it holds the key or has already settled. */
  ghost predicate BodiesLocked(s: State) {
    && Lock.Inv(s.lock)
    && (forall t :: t in s.jobs ==>
          && t in s.lock.tasks
          && (s.lock.tasks[t].Waiting? ==> s.jobs[t].phase.Fresh?)
          && (s.lock.tasks[t].Settled? ==> Finished(s.jobs[t])))
    && (forall t :: t in s.lock.tasks ==> t in s.jobs)
    && (forall t :: t in s.lock.tasks && !s.lock.tasks[t].Settled? ==> s.lock.tasks[t].key == RELAYER_TX_LOCK_KEY)
  }

  /** A body that is past its start and not finished is the only one. */
  ghost predicate Midway(s: State, t: Lock.Task) {
    t in s.jobs && !s.jobs[t].phase.Fresh? && !Finished(s.jobs[t])
  }

  lemma MidwayAlone(s: State, t: Lock.Task, u: Lock.Task)
    requires BodiesLocked(s) && Midway(s, t)
    requires Midway(s, u) || HoldsKey(s, u)
    ensures t == u
  {
    assert Lock.Holds(s.lock, t, RELAYER_TX_LOCK_KEY);
    assert Lock.Holds(s.lock, u, RELAYER_TX_LOCK_KEY);
  }

  ghost predicate Awaits(s: State, t: Lock.Task) {
    Midway(s, t) && s.jobs[t].phase.Sent?
  }

  ghost predicate NonceLog(s: State) {
    && Chain(s.sends, s.pending) && MiningOk(s.sends)
    && (LastOutstanding(s.sends) <==> exists t :: Awaits(s, t))
  }

  /** Claim rows are in time order, spaced per wallet and per IP, and no closed 24-hour window is over the cap. */
  ghost predicate ClaimsSpaced(s: State) {
    && (forall i :: 0 <= i < |s.claims| ==> s.claims[i].claimedAt <= s.clock / 1000)
    && Spaced(s.claims)
    && Capped(s.claims)
  }

  /** The gates a claim passed still hold of the table when it is about to insert, because nobody else can. */
  ghost predicate GatesStable(s: State) {
    forall t :: Midway(s, t) && s.jobs[t].request.Claim? ==>
      exists now: nat, capNow: nat :: now <= capNow <= s.clock / 1000 &&
        Allowed(s.claims, s.jobs[t].request.wallet, s.jobs[t].request.ip, now, capNow)
  }

  ghost predicate Inv(s: State) {
    BodiesLocked(s) && NonceLog(s) && ClaimsSpaced(s) && GatesStable(s)
  }

  /** What a lock step does to the tasks. */
  lemma LockStepFrame(k: Lock.State, l: Lock.Label)
    requires Lock.Enabled(k, l)
    ensures var k' := Lock.Apply(k, l);
            && k'.tasks.Keys == k.tasks.Keys + {l.task}
            && (forall t :: t in k.tasks && t != l.task ==> k'.tasks[t] == k.tasks[t])
            && (l.Call? ==> !k'.tasks[l.task].Settled? && k'.tasks[l.task].key == l.key)
            && (l.Resume? ==> k.tasks[l.task].Waiting? && !k'.tasks[l.task].Settled? && k'.tasks[l.task].key == k.tasks[l.task].key)
            && (l.Settle? ==> k.tasks[l.task].Holding? && k'.tasks[l.task].Settled?)
  {
  }

  lemma LockStepKeepsBodies(s: State, s': State, l: Lock.Label)
    requires BodiesLocked(s)
    requires Lock.Enabled(s.lock, l)
    requires s'.lock == Lock.Apply(s.lock, l)
    requires l.Call? ==> l.key == RELAYER_TX_LOCK_KEY && l.task in s'.jobs
                         && s'.jobs == s.jobs[l.task := s'.jobs[l.task]] && s'.jobs[l.task].phase.Fresh?
    requires !l.Call? ==> s'.jobs == s.jobs
    requires l.Settle? ==> Finished(s.jobs[l.task])
    ensures BodiesLocked(s')
  {
    Lock.StepKeepsInv(s.lock, l);
    LockStepFrame(s.lock, l);
  }

  lemma StepKeepsBodies(s: State, l: Label)
    requires Inv(s)
    ensures BodiesLocked(Apply(s, l))
  {
    if Enabled(s, l) {
      var s' := Apply(s, l);
      match l
      case Arrive(t, r) => LockStepKeepsBodies(s, s', Lock.Call(t, RELAYER_TX_LOCK_KEY));
      case Wake(t) => LockStepKeepsBodies(s, s', Lock.Resume(t));
      case Leave(t) => LockStepKeepsBodies(s, s', Lock.Settle(t, !s.jobs[t].phase.Thrown?));
      case _ =>
    }
  }

  /** A step that moves no awaiting body keeps the coupling. */
  lemma AwaitersUnmoved(s: State, s': State)
    requires NonceLog(s) && s'.sends == s.sends && s'.pending == s.pending
    requires forall u :: Awaits(s, u) <==> Awaits(s', u)
    ensures NonceLog(s')
  {
  }

  lemma StepKeepsNonceLog(s: State, l: Label)
    requires Inv(s)
    ensures NonceLog(Apply(s, l))
  {
    if Enabled(s, l) {
      match l
      case Broadcast(t) => BroadcastKeepsLog(s, Apply(s, l), t);
      case Confirm(t, _) => ConfirmKeepsLog(s, Apply(s, l), t);
      case LateConfirm(i) => LateKeepsLog(s, Apply(s, l), i);
      case Throw(t) =>
        if s.jobs[t].phase.Sent? {
          AbandonKeepsLog(s, Apply(s, l), t);
        } else {
          ThrowMovesNoAwaiter(s, t);
          AwaitersUnmoved(s, Apply(s, l));
        }
      case _ =>
        OthersMoveNoAwaiter(s, l);
        AwaitersUnmoved(s, Apply(s, l));
    }
  }

  lemma ThrowMovesNoAwaiter(s: State, t: Lock.Task)
    requires Enabled(s, Throw(t)) && !s.jobs[t].phase.Sent?
    ensures var s' := Apply(s, Throw(t));
            s'.sends == s.sends && s'.pending == s.pending && forall u :: Awaits(s, u) <==> Awaits(s', u)
  {
  }

  lemma OthersMoveNoAwaiter(s: State, l: Label)
    requires BodiesLocked(s) && Enabled(s, l) && !l.Broadcast? && !l.Confirm? && !l.LateConfirm? && !l.Throw?
    ensures var s' := Apply(s, l);
            s'.sends == s.sends && s'.pending == s.pending && forall u :: Awaits(s, u) <==> Awaits(s', u)
  {
    match l
    case Tick(_) =>
    case Arrive(_, _) =>
    case Wake(_) =>
    case Check(_, _) =>
    case Record(_) =>
    case Leave(_) =>
  }

  lemma BroadcastKeepsLog(s: State, s': State, t: Lock.Task)
    requires Inv(s) && HoldsKey(s, t) && !s.jobs[t].phase.Sent? && s'.pending == s.pending
    requires t in s'.jobs && s'.jobs == s.jobs[t := s'.jobs[t]] && s'.jobs[t].phase.Sent?
    requires s'.sends == s.sends + [Send(s.pending, Outstanding, 0)]
    ensures NonceLog(s')
  {
    if LastOutstanding(s.sends) {
      var u :| Awaits(s, u);
      MidwayAlone(s, u, t);
    }
    ChainAppend(s.sends, s.pending);
    assert Awaits(s', t);
  }

  lemma ConfirmKeepsLog(s: State, s': State, t: Lock.Task)
    requires BodiesLocked(s) && NonceLog(s) && HoldsKey(s, t) && s.jobs[t].phase.Sent?
    requires s.sends != [] && s.sends[|s.sends| - 1].nonce == s.pending
    requires t in s'.jobs && s'.jobs == s.jobs[t := s'.jobs[t]] && !s'.jobs[t].phase.Sent?
    requires s'.sends == CloseSend(s.sends, Confirmed) && s'.pending == s.pending + 1
    ensures NonceLog(s')
  {
    assert Awaits(s, t);
    ChainMine(s.sends, s.pending, |s.sends| - 1);
    NobodyElseAwaits(s, s', t);
  }

  lemma LateKeepsLog(s: State, s': State, i: nat)
    requires NonceLog(s) && i < |s.sends| && s.sends[i].outcome.Abandoned? && s.sends[i].nonce == s.pending
    requires s'.jobs == s.jobs && s'.lock == s.lock && s'.pending == s.pending + 1
    requires s'.sends == s.sends[i := s.sends[i].(outcome := Confirmed, mined := |s.sends|)]
    ensures NonceLog(s')
  {
    ChainMine(s.sends, s.pending, i);
    assert forall u :: Awaits(s', u) <==> Awaits(s, u);
  }

  lemma AbandonKeepsLog(s: State, s': State, t: Lock.Task)
    requires BodiesLocked(s) && NonceLog(s) && HoldsKey(s, t) && s.jobs[t].phase.Sent? && s.sends != []
    requires t in s'.jobs && s'.jobs == s.jobs[t := s'.jobs[t]] && !s'.jobs[t].phase.Sent?
    requires s'.sends == CloseSend(s.sends, Abandoned) && s'.pending == s.pending
    ensures NonceLog(s')
  {
    assert Awaits(s, t);
    ChainAbandon(s.sends, s.pending);
    NobodyElseAwaits(s, s', t);
  }

  lemma NobodyElseAwaits(s: State, s': State, t: Lock.Task)
    requires BodiesLocked(s) && Awaits(s, t)
    requires t in s'.jobs && s'.jobs == s.jobs[t := s'.jobs[t]] && !s'.jobs[t].phase.Sent?
    ensures forall u :: !Awaits(s', u)
  {
    forall u ensures !Awaits(s', u) {
      if Awaits(s', u) {
        assert Awaits(s, u);
        MidwayAlone(s, u, t);
      }
    }
  }

  lemma StepKeepsClaims(s: State, l: Label)
    requires Inv(s)
    ensures ClaimsSpaced(Apply(s, l)) && GatesStable(Apply(s, l))
  {
    if Enabled(s, l) {
      if l.Record? {
        RecordKeepsClaims(s, Apply(s, l), l.task);
      } else {
        GatesStay(s, l);
      }
    }
  }

  lemma RecordKeepsClaims(s: State, s': State, t: Lock.Task)
    requires Inv(s) && Midway(s, t) && s.jobs[t].request.Claim? && s'.clock == s.clock
    requires t in s'.jobs && s'.jobs == s.jobs[t := s'.jobs[t]] && Finished(s'.jobs[t])
    requires s'.claims == s.claims + [ClaimRow(s.jobs[t].request.wallet, s.jobs[t].request.ip, s.clock / 1000)]
    ensures ClaimsSpaced(s') && GatesStable(s')
  {
    var r := s.jobs[t].request;
    var now: nat, capNow: nat :| now <= capNow <= s.clock / 1000 && Allowed(s.claims, r.wallet, r.ip, now, capNow);
    InsertKeepsSpacing(s.claims, ClaimRow(r.wallet, r.ip, s.clock / 1000), now, capNow);
    forall u | Midway(s', u) ensures false {
      assert Midway(s, u);
      MidwayAlone(s, u, t);
    }
  }

  lemma GatesStay(s: State, l: Label)
    requires Inv(s) && Enabled(s, l) && !l.Record?
    ensures ClaimsSpaced(Apply(s, l)) && GatesStable(Apply(s, l))
  {
    var s' := Apply(s, l);
    assert s'.claims == s.claims && s.clock / 1000 <= s'.clock / 1000;
    forall u | Midway(s', u) && s'.jobs[u].request.Claim?
      ensures exists now: nat, capNow: nat :: now <= capNow <= s'.clock / 1000 &&
                Allowed(s'.claims, s'.jobs[u].request.wallet, s'.jobs[u].request.ip, now, capNow)
    {
      var r := s'.jobs[u].request;
      if Midway(s, u) {
        var now: nat, capNow: nat :| now <= capNow <= s.clock / 1000 && Allowed(s.claims, r.wallet, r.ip, now, capNow);
      } else {
        assert l == Check(u, l.later);
        assert Allowed(s'.claims, r.wallet, r.ip, s.clock / 1000, s'.clock / 1000);
      }
    }
  }

  lemma {:induction false} AlwaysInv(nonce: nat, ls: seq<Label>)
    ensures Inv(Exec(Initial(nonce), ls))
  {
    if ls != [] {
      var s := Exec(Initial(nonce), ls[..|ls| - 1]);
      AlwaysInv(nonce, ls[..|ls| - 1]);
      StepKeepsBodies(s, ls[|ls| - 1]);
      StepKeepsNonceLog(s, ls[|ls| - 1]);
      StepKeepsClaims(s, ls[|ls| - 1]);
    }
  }
}
