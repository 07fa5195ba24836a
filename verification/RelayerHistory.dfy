/** What a relayer body did, read off the schedule: which request it serves, which transactions it sent in which order, and
    which rows the claims table therefore holds (src/routes/faucet.ts:95-166, src/services/policies.ts). */
module RelayerHistory {
  import opened Basics
  import Lock
  import opened Claims
  import opened Relayer

  /** A body step that ran, and the phase it led to. */
  datatype Move = Move(step: Label, phase: Phase)

  /** The request a task arrived with. */
  function RequestOf(ls: seq<Label>, t: Lock.Task): Option<Request> {
    if ls == [] then None else
      var before, l := RequestOf(ls[..|ls| - 1], t), ls[|ls| - 1];
      if before.None? && l.Arrive? && l.task == t then Some(l.request) else before
  }

  predicate BodyStep(l: Label, t: Lock.Task) {
    (l.Check? || l.Broadcast? || l.Confirm? || l.Record? || l.Throw?) && l.task == t
  }

  /** The steps of a task's body that ran, in order. */
  ghost function Trail(nonce: nat, ls: seq<Label>, t: Lock.Task): seq<Move> {
    if ls == [] then [] else
      var init, l := ls[..|ls| - 1], ls[|ls| - 1];
      var s' := Exec(Initial(nonce), ls);
      Trail(nonce, init, t) +
        if BodyStep(l, t) && Enabled(Exec(Initial(nonce), init), l) && t in s'.jobs then [Move(l, s'.jobs[t].phase)] else []
  }

  /** Step i of a claim that goes well: the gates, the mint sent and mined, the ETH sent and mined, the row. */
  predicate ClaimMove(m: Move, i: nat) {
    (i == 0 && m.step.Check? && m.phase.Passed?)
    || (i == 1 && m.step.Broadcast? && m.phase == Sent(Mint))
    || (i == 2 && m.step.Confirm? && m.step.good && m.phase == Mined(Mint))
    || (i == 3 && m.step.Broadcast? && m.phase == Sent(Eth))
    || (i == 4 && m.step.Confirm? && m.step.good && m.phase == Mined(Eth))
    || (i == 5 && m.step.Record? && m.phase.Recorded?)
  }

  predicate BuyMove(m: Move, i: nat) {
    (i == 0 && m.step.Broadcast? && m.phase == Sent(Buy))
    || (i == 1 && m.step.Confirm? && m.step.good && m.phase == Mined(Buy))
  }

  /** A gate that refuses, a reverted receipt, or a rejected await. */
  predicate FailingMove(m: Move) {
    m.phase.Thrown? && (m.step.Check? || (m.step.Confirm? && !m.step.good) || m.step.Throw?)
  }

  /** The body went its one way, and at most its last step failed. */
  predicate Straight(r: Request, tr: seq<Move>) {
    && |tr| <= (if r.Claim? then 6 else 2)
    && forall i :: 0 <= i < |tr| ==>
         (if r.Claim? then ClaimMove(tr[i], i) else BuyMove(tr[i], i)) || (i == |tr| - 1 && FailingMove(tr[i]))
  }

  /** A job is the request that arrived, in the phase its trail led to. */
  ghost predicate TracedBy(s: State, t: Lock.Task, o: Option<Request>, tr: seq<Move>) {
    && (t in s.jobs <==> o.Some?)
    && (o.None? ==> tr == [])
    && (o.Some? ==>
          && s.jobs[t].request == o.value
          && s.jobs[t].phase == (if tr == [] then Fresh else tr[|tr| - 1].phase)
          && Straight(o.value, tr))
  }

  ghost predicate Traced(nonce: nat, ls: seq<Label>, t: Lock.Task) {
    TracedBy(Exec(Initial(nonce), ls), t, RequestOf(ls, t), Trail(nonce, ls, t))
  }

  /** A step leaves a job alone, or is a body step of it, or is its arrival. */
  predicate JobMoves(s: State, l: Label, s': State, t: Lock.Task) {
    && (t in s.jobs ==> t in s'.jobs && s'.jobs[t].request == s.jobs[t].request)
    && (t in s.jobs && !(BodyStep(l, t) && Enabled(s, l)) ==> s'.jobs[t] == s.jobs[t])
    && (t !in s.jobs && t in s'.jobs ==> l.Arrive? && l.task == t && s'.jobs[t] == Job(l.request, Fresh))
    && (t !in s.jobs && t !in s.lock.tasks && l.Arrive? && l.task == t ==> t in s'.jobs)
    && (t !in s.jobs && BodyStep(l, t) ==> !Enabled(s, l))
  }

  lemma JobStep(s: State, l: Label, t: Lock.Task)
    ensures JobMoves(s, l, Apply(s, l), t)
  {
    if Enabled(s, l) {
      match l
      case Tick(_) =>
      case Arrive(_, _) =>
      case Wake(_) =>
      case Check(_, _) =>
      case Broadcast(_) =>
      case Confirm(_, _) =>
      case LateConfirm(_) =>
      case Record(_) =>
      case Throw(_) =>
      case Leave(_) =>
    }
  }

  /** What may follow the phase a body is in. */
  lemma NextMove(s: State, l: Label, t: Lock.Task)
    requires BodyStep(l, t) && Enabled(s, l)
    requires s.jobs[t].phase.Sent? ==> (s.jobs[t].phase.tx.Buy? <==> s.jobs[t].request.Purchase?)
    ensures t in s.jobs && t in Apply(s, l).jobs
    ensures var m, r, phase := Move(l, Apply(s, l).jobs[t].phase), s.jobs[t].request, s.jobs[t].phase;
            || FailingMove(m)
            || (r.Claim? && phase.Fresh? && ClaimMove(m, 0))
            || (r.Claim? && phase.Passed? && ClaimMove(m, 1))
            || (phase == Sent(Mint) && ClaimMove(m, 2))
            || (r.Claim? && phase == Mined(Mint) && ClaimMove(m, 3))
            || (phase == Sent(Eth) && ClaimMove(m, 4))
            || (r.Claim? && phase == Mined(Eth) && ClaimMove(m, 5))
            || (r.Purchase? && phase.Fresh? && BuyMove(m, 0))
            || (phase == Sent(Buy) && BuyMove(m, 1))
    ensures !s.jobs[t].phase.Thrown? && !s.jobs[t].phase.Recorded? && s.jobs[t].phase != Mined(Buy)
  {
  }

  /** The next move continues the one way. */
  lemma NextIsStraight(r: Request, tr: seq<Move>, phase: Phase, m: Move)
    requires Straight(r, tr) && phase == (if tr == [] then Fresh else tr[|tr| - 1].phase)
    requires !phase.Thrown? && !phase.Recorded? && phase != Mined(Buy)
    requires || FailingMove(m)
             || (r.Claim? && phase.Fresh? && ClaimMove(m, 0))
             || (r.Claim? && phase.Passed? && ClaimMove(m, 1))
             || (phase == Sent(Mint) && ClaimMove(m, 2))
             || (r.Claim? && phase == Mined(Mint) && ClaimMove(m, 3))
             || (phase == Sent(Eth) && ClaimMove(m, 4))
             || (r.Claim? && phase == Mined(Eth) && ClaimMove(m, 5))
             || (r.Purchase? && phase.Fresh? && BuyMove(m, 0))
             || (phase == Sent(Buy) && BuyMove(m, 1))
    ensures Straight(r, tr + [m])
  {
    if tr != [] { assert (if r.Claim? then ClaimMove(tr[|tr| - 1], |tr| - 1) else BuyMove(tr[|tr| - 1], |tr| - 1)); }
    var tr' := tr + [m];
    forall i | 0 <= i < |tr'|
      ensures (if r.Claim? then ClaimMove(tr'[i], i) else BuyMove(tr'[i], i)) || (i == |tr'| - 1 && FailingMove(tr'[i]))
    {
      if i < |tr| { assert tr'[i] == tr[i]; }
    }
  }

  lemma BodyTraced(s: State, l: Label, t: Lock.Task, o: Option<Request>, tr: seq<Move>)
    requires TracedBy(s, t, o, tr) && BodyStep(l, t) && Enabled(s, l)
    ensures t in Apply(s, l).jobs && TracedBy(Apply(s, l), t, o, tr + [Move(l, Apply(s, l).jobs[t].phase)])
  {
    JobStep(s, l, t);
    NextMove(s, l, t);
    NextIsStraight(s.jobs[t].request, tr, s.jobs[t].phase, Move(l, Apply(s, l).jobs[t].phase));
  }

  lemma OtherTraced(s: State, l: Label, s': State, t: Lock.Task, o: Option<Request>, tr: seq<Move>)
    requires TracedBy(s, t, o, tr) && JobMoves(s, l, s', t) && !(BodyStep(l, t) && Enabled(s, l))
    requires t !in s.jobs ==> t !in s.lock.tasks
    ensures TracedBy(s', t, if o.None? && l.Arrive? && l.task == t then Some(l.request) else o, tr)
  {
  }

  lemma HistorySnoc(nonce: nat, init: seq<Label>, l: Label, t: Lock.Task)
    ensures var s, s', before := Exec(Initial(nonce), init), Exec(Initial(nonce), init + [l]), RequestOf(init, t);
            && RequestOf(init + [l], t) == (if before.None? && l.Arrive? && l.task == t then Some(l.request) else before)
            && Trail(nonce, init + [l], t) == Trail(nonce, init, t) +
                 if BodyStep(l, t) && Enabled(s, l) && t in s'.jobs then [Move(l, s'.jobs[t].phase)] else []
  {
    assert (init + [l])[..|init|] == init;
  }

  lemma StepTraced(nonce: nat, init: seq<Label>, l: Label, t: Lock.Task)
    requires Traced(nonce, init, t) && BodiesLocked(Exec(Initial(nonce), init))
    ensures Traced(nonce, init + [l], t)
  {
    var s := Exec(Initial(nonce), init);
    HistorySnoc(nonce, init, l, t);
    ExecSnoc(nonce, init, l);
    JobStep(s, l, t);
    if BodyStep(l, t) && Enabled(s, l) {
      BodyTraced(s, l, t, RequestOf(init, t), Trail(nonce, init, t));
    } else {
      assert t !in s.jobs ==> t !in s.lock.tasks;
      OtherTraced(s, l, Apply(s, l), t, RequestOf(init, t), Trail(nonce, init, t));
      assert Trail(nonce, init + [l], t) == Trail(nonce, init, t);
    }
  }

  lemma {:induction false} AlwaysTraced(nonce: nat, ls: seq<Label>, t: Lock.Task)
    ensures Traced(nonce, ls, t)
  {
    if ls != [] {
      var init, l := ls[..|ls| - 1], ls[|ls| - 1];
      assert ls == init + [l];
      AlwaysTraced(nonce, init, t);
      AlwaysInv(nonce, init);
      StepTraced(nonce, init, l, t);
    }
  }

  /** Over every run, a body that records a claim first passed the gates, then had its mint mined, then its ETH transfer,
      in that order and each once, and nothing else happened in it; its request is the one it arrived with. */
  lemma RecordedIsPaid(nonce: nat, ls: seq<Label>, t: Lock.Task)
    requires var s := Exec(Initial(nonce), ls); t in s.jobs && s.jobs[t].phase.Recorded?
    ensures var tr := Trail(nonce, ls, t);
            && RequestOf(ls, t).Some? && RequestOf(ls, t).value.Claim?
            && |tr| == 6
            && tr[0].step.Check? && tr[0].phase.Passed?
            && tr[1] == Move(Broadcast(t), Sent(Mint)) && tr[2] == Move(Confirm(t, true), Mined(Mint))
            && tr[3] == Move(Broadcast(t), Sent(Eth)) && tr[4] == Move(Confirm(t, true), Mined(Eth))
            && tr[5] == Move(Record(t), Recorded)
  {
    AlwaysTraced(nonce, ls, t);
    TrailIsOwn(nonce, ls, t);
  }

  lemma {:induction false} TrailIsOwn(nonce: nat, ls: seq<Label>, t: Lock.Task)
    ensures forall i :: 0 <= i < |Trail(nonce, ls, t)| ==> BodyStep(Trail(nonce, ls, t)[i].step, t)
  {
    if ls != [] { TrailIsOwn(nonce, ls[..|ls| - 1], t); }
  }

  /** A purchase sends one transaction. */
  lemma PurchaseSendsOnce(nonce: nat, ls: seq<Label>, t: Lock.Task)
    requires RequestOf(ls, t) == Some(Purchase)
    ensures var tr := Trail(nonce, ls, t);
            && |tr| <= 2
            && t in Exec(Initial(nonce), ls).jobs
            && (Exec(Initial(nonce), ls).jobs[t].phase == Mined(Buy)
                <==> tr == [Move(Broadcast(t), Sent(Buy)), Move(Confirm(t, true), Mined(Buy))])
  {
    AlwaysTraced(nonce, ls, t);
    TrailIsOwn(nonce, ls, t);
  }

  // ---- the claims table ----

  /** The rows the schedule's inserts wrote: the wallet and the IP of the request, and the second of the insert. */
  ghost function Rows(nonce: nat, ls: seq<Label>): seq<ClaimRow> {
    if ls == [] then [] else
      var init, l := ls[..|ls| - 1], ls[|ls| - 1];
      var s := Exec(Initial(nonce), init);
      Rows(nonce, init) +
        if l.Record? && Enabled(s, l) && RequestOf(init, l.task).Some? && RequestOf(init, l.task).value.Claim?
        then [ClaimRow(RequestOf(init, l.task).value.wallet, RequestOf(init, l.task).value.ip, s.clock / 1000)] else []
  }

  /** Only an insert changes the table. */
  lemma ClaimsStep(s: State, l: Label)
    ensures Apply(s, l).claims == s.claims +
              if l.Record? && Enabled(s, l) then [ClaimRow(s.jobs[l.task].request.wallet, s.jobs[l.task].request.ip, s.clock / 1000)] else []
  {
    if Enabled(s, l) {
      match l
      case Tick(_) =>
      case Arrive(_, _) =>
      case Wake(_) =>
      case Check(_, _) =>
      case Broadcast(_) =>
      case Confirm(_, _) =>
      case LateConfirm(_) =>
      case Record(_) =>
      case Throw(_) =>
      case Leave(_) =>
    }
  }

  lemma {:induction false} ClaimsAreRecords(nonce: nat, ls: seq<Label>)
    ensures Exec(Initial(nonce), ls).claims == Rows(nonce, ls)
  {
    if ls != [] {
      var init, l := ls[..|ls| - 1], ls[|ls| - 1];
      ClaimsAreRecords(nonce, init);
      ClaimsStep(Exec(Initial(nonce), init), l);
      if l.Record? { AlwaysTraced(nonce, init, l.task); }
    }
  }

  // ---- the nonces ----

  /** The sends mined so far. */
  ghost function MinedCount(nonce: nat, ls: seq<Label>): nat {
    if ls == [] then 0 else
      var init, l := ls[..|ls| - 1], ls[|ls| - 1];
      MinedCount(nonce, init) + if (l.Confirm? || l.LateConfirm?) && Enabled(Exec(Initial(nonce), init), l) then 1 else 0
  }

  /** What each send read: the first pending nonce plus the sends mined by then. */
  ghost function NoncesRead(nonce: nat, ls: seq<Label>): seq<nat> {
    if ls == [] then [] else
      var init, l := ls[..|ls| - 1], ls[|ls| - 1];
      NoncesRead(nonce, init) + if l.Broadcast? && Enabled(Exec(Initial(nonce), init), l) then [nonce + MinedCount(nonce, init)] else []
  }

  /** Send i was mined: while its body waited for it as the last send, or later. */
  ghost predicate MinedBy(nonce: nat, ls: seq<Label>, i: nat) {
    if ls == [] then false else
      var init, l := ls[..|ls| - 1], ls[|ls| - 1];
      || MinedBy(nonce, init, i)
      || (Enabled(Exec(Initial(nonce), init), l)
          && ((l.Confirm? && i + 1 == |NoncesRead(nonce, init)|) || (l.LateConfirm? && l.i == i)))
  }

  /** What a step does to the sends and the pending nonce. */
  predicate SendsMove(s: State, l: Label, s': State) {
    var on := Enabled(s, l);
    && s'.pending == s.pending + (if on && (l.Confirm? || l.LateConfirm?) then 1 else 0)
    && |s'.sends| == |s.sends| + (if on && l.Broadcast? then 1 else 0)
    && (on && l.Broadcast? ==> s'.sends[|s.sends|].nonce == s.pending && !s'.sends[|s.sends|].outcome.Confirmed?)
    && (forall i: nat :: i < |s.sends| ==> s'.sends[i].nonce == s.sends[i].nonce)
  }

  lemma SendsStep(s: State, l: Label)
    ensures SendsMove(s, l, Apply(s, l))
  {
    if Enabled(s, l) {
      match l
      case Tick(_) =>
      case Arrive(_, _) =>
      case Wake(_) =>
      case Check(_, _) =>
      case Broadcast(_) =>
      case Confirm(_, _) =>
      case LateConfirm(_) =>
      case Record(_) =>
      case Throw(_) =>
      case Leave(_) =>
    }
  }

  /** Over every run the pending nonce is the first one plus the sends mined, and each send read the pending nonce of its own
      broadcast. */
  lemma {:induction false} NoncesAreCounts(nonce: nat, ls: seq<Label>)
    ensures var s := Exec(Initial(nonce), ls);
            && s.pending == nonce + MinedCount(nonce, ls)
            && |s.sends| == |NoncesRead(nonce, ls)|
            && forall i: nat :: i < |s.sends| ==> s.sends[i].nonce == NoncesRead(nonce, ls)[i]
  {
    if ls != [] {
      var init, l := ls[..|ls| - 1], ls[|ls| - 1];
      NoncesAreCounts(nonce, init);
      SendsStep(Exec(Initial(nonce), init), l);
    }
  }

  /** What a step does to which sends are mined. */
  predicate MiningMoves(s: State, l: Label, s': State, i: nat)
    requires i < |s.sends| && i < |s'.sends|
  {
    s'.sends[i].outcome.Confirmed? <==>
      s.sends[i].outcome.Confirmed? || (Enabled(s, l) && ((l.Confirm? && i + 1 == |s.sends|) || (l.LateConfirm? && l.i == i)))
  }

  lemma MiningStep(s: State, l: Label, i: nat)
    requires Inv(s) && i < |s.sends|
    ensures i < |Apply(s, l).sends| && MiningMoves(s, l, Apply(s, l), i)
  {
    if Enabled(s, l) && l.Throw? && s.jobs[l.task].phase.Sent? {
      assert Awaits(s, l.task);
    }
  }

  /** Over every run a send counts as mined exactly when a step mined it. */
  lemma {:induction false} MinedIsMined(nonce: nat, ls: seq<Label>, i: nat)
    requires i < |Exec(Initial(nonce), ls).sends|
    ensures Exec(Initial(nonce), ls).sends[i].outcome.Confirmed? <==> MinedBy(nonce, ls, i)
  {
    var init, l := ls[..|ls| - 1], ls[|ls| - 1];
    var s := Exec(Initial(nonce), init);
    AlwaysInv(nonce, init);
    NoncesAreCounts(nonce, init);
    SendsStep(s, l);
    if i < |s.sends| {
      MinedIsMined(nonce, init, i);
      MiningStep(s, l, i);
    } else {
      NotSentYet(nonce, init, i);
    }
  }

  lemma {:induction false} NotSentYet(nonce: nat, ls: seq<Label>, i: nat)
    requires i >= |Exec(Initial(nonce), ls).sends|
    ensures !MinedBy(nonce, ls, i)
  {
    if ls != [] {
      var init, l := ls[..|ls| - 1], ls[|ls| - 1];
      SendsStep(Exec(Initial(nonce), init), l);
      NoncesAreCounts(nonce, init);
      NotSentYet(nonce, init, i);
    }
  }

  // ---- which claims are refused ----

  /** At least 50 rows are at most 86,400 s old, or the wallet or the IP has one younger than that. */
  predicate Refused(cs: seq<ClaimRow>, wallet: string, ip: string, nowS: nat, capNowS: nat) {
    || |set i: nat | i < |cs| && cs[i].claimedAt + 86400 >= capNowS| >= 50
    || (exists i :: 0 <= i < |cs| && (cs[i].wallet == wallet || cs[i].ip == ip) && nowS < cs[i].claimedAt + 86400)
  }

  lemma GatesAreWindows(cs: seq<ClaimRow>, wallet: string, ip: string, nowS: nat, capNowS: nat)
    ensures Allowed(cs, wallet, ip, nowS, capNowS) <==> !Refused(cs, wallet, ip, nowS, capNowS)
  {
    CountIsExact(cs, capNowS - 86400);
    assert Recent(cs, capNowS - 86400) == set i: nat | i < |cs| && cs[i].claimedAt + 86400 >= capNowS;
    if Cooling(LastByWallet(cs, wallet), nowS) {
      var c :| c in cs && c.wallet == wallet && c.claimedAt == LastByWallet(cs, wallet).value;
    }
    if Cooling(LastByIp(cs, ip), nowS) {
      var c :| c in cs && c.ip == ip && c.claimedAt == LastByIp(cs, ip).value;
    }
    if !Cooling(LastByWallet(cs, wallet), nowS) && !Cooling(LastByIp(cs, ip), nowS) {
      forall i | 0 <= i < |cs| && (cs[i].wallet == wallet || cs[i].ip == ip) ensures nowS >= cs[i].claimedAt + 86400 {
        assert cs[i] in cs;
      }
    }
  }

  /** The gates turned the claim away exactly for a full window or a young claim, and let it go on otherwise. */
  predicate Gated(s: State, s': State, t: Lock.Task, r: Request, cs: seq<ClaimRow>, later: nat)
    requires r.Claim?
  {
    && t in s'.jobs
    && (s'.jobs[t].phase.Thrown? <==> Refused(cs, r.wallet, r.ip, s.clock / 1000, (s.clock + later) / 1000))
    && (s'.jobs[t].phase.Thrown? || s'.jobs[t].phase == Passed(s.clock / 1000))
  }

  lemma CheckDecides(s: State, t: Lock.Task, later: nat)
    requires Enabled(s, Check(t, later))
    ensures Gated(s, Apply(s, Check(t, later)), t, s.jobs[t].request, s.claims, later)
  {
    var r := s.jobs[t].request;
    GatesAreWindows(s.claims, r.wallet, r.ip, s.clock / 1000, (s.clock + later) / 1000);
  }

  lemma ExecSnoc(nonce: nat, ls: seq<Label>, l: Label)
    ensures Exec(Initial(nonce), ls + [l]) == Apply(Exec(Initial(nonce), ls), l)
  {
    assert (ls + [l])[..|ls|] == ls;
  }

  /** Over every run, the gates turn a claim away exactly when 50 of the rows inserted so far are at most 86,400 s old on
      the cap's clock, or one of its wallet or its IP is younger than that on the cooldowns' clock; otherwise it goes
      on to its mint. So old claims never use up the cap. */
  lemma ClaimRefusedIff(nonce: nat, ls: seq<Label>, t: Lock.Task, later: nat)
    requires Enabled(Exec(Initial(nonce), ls), Check(t, later))
    ensures RequestOf(ls, t).Some? && RequestOf(ls, t).value.Claim?
    ensures Gated(Exec(Initial(nonce), ls), Exec(Initial(nonce), ls + [Check(t, later)]), t, RequestOf(ls, t).value, Rows(nonce, ls), later)
  {
    ExecSnoc(nonce, ls, Check(t, later));
    AlwaysTraced(nonce, ls, t);
    ClaimsAreRecords(nonce, ls);
    CheckDecides(Exec(Initial(nonce), ls), t, later);
  }
}
