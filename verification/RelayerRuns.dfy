/** What every run of the relayer guarantees: nonces and faucet limits. */
module RelayerRuns {
  import opened Claims
  import opened Nonces
  import opened Relayer

  /** Over all interleavings of faucet claims and purchases, abandoned sends mined late included: nonces never fall in send
      order; two sends read the same nonce iff nothing was mined between their broadcasts; any two sends that were
      mined used different nonces, increasing in send order. */
  lemma NoncesNeverCollide(nonce: nat, ls: seq<Label>, i: nat, j: nat)
    requires i < j < |Exec(Initial(nonce), ls).sends|
    ensures var ss := Exec(Initial(nonce), ls).sends;
            && ss[i].nonce <= ss[j].nonce
            && (ss[i].nonce == ss[j].nonce <==> forall n: nat :: i < n <= j ==> !MinedAt(ss, n))
            && (ss[i].outcome.Confirmed? && ss[j].outcome.Confirmed? ==> ss[i].nonce < ss[j].nonce)
            && !ss[i].outcome.Outstanding?
  {
    AlwaysInv(nonce, ls);
    var s := Exec(Initial(nonce), ls);
    NoncesRise(s.sends, s.pending, i, j);
    if s.sends[i].outcome.Confirmed? && s.sends[j].outcome.Confirmed? { MinedApart(s.sends, s.pending, i, j); }
  }

  /** Exactly when a send repeats a nonce: the nonce the next send reads was read by an earlier send iff no send with that
      send's nonce has been mined. */
  lemma NonceReuseIff(nonce: nat, ls: seq<Label>, i: nat)
    requires i < |Exec(Initial(nonce), ls).sends|
    ensures var s := Exec(Initial(nonce), ls);
            s.pending == s.sends[i].nonce
            <==> forall m :: 0 <= m < |s.sends| && s.sends[m].nonce == s.sends[i].nonce ==> !s.sends[m].outcome.Confirmed?
  {
    AlwaysInv(nonce, ls);
    var s := Exec(Initial(nonce), ls);
    var ss := s.sends;
    if s.pending == ss[i].nonce {
      forall m | 0 <= m < |ss| && ss[m].nonce == ss[i].nonce ensures !ss[m].outcome.Confirmed? {
        if ss[m].outcome.Confirmed? { MinedIsPast(ss, s.pending, m); }
      }
    } else {
      NoncesRise(ss, s.pending, 0, i);
      NoncesRise(ss, s.pending, i, |ss| - 1);
      var m := MinedWith(ss, s.pending, ss[i].nonce);
    }
  }

  /** The mined nonces are exactly the initial one up to the pending one, each mined by exactly one send. */
  lemma MinedNonces(nonce: nat, ls: seq<Label>, v: nat)
    ensures var s := Exec(Initial(nonce), ls);
            && (nonce <= v < s.pending <==> exists m :: 0 <= m < |s.sends| && s.sends[m].outcome.Confirmed? && s.sends[m].nonce == v)
            && forall m, n :: 0 <= m < n < |s.sends| && s.sends[m].outcome.Confirmed? && s.sends[n].outcome.Confirmed?
                 ==> s.sends[m].nonce != s.sends[n].nonce
  {
    AlwaysInv(nonce, ls);
    FirstNonce(nonce, ls);
    var s := Exec(Initial(nonce), ls);
    if nonce <= v < s.pending {
      var m := MinedWith(s.sends, s.pending, v);
    }
    forall m | 0 <= m < |s.sends| && s.sends[m].outcome.Confirmed? ensures nonce <= s.sends[m].nonce < s.pending {
      MinedIsPast(s.sends, s.pending, m);
      NoncesRise(s.sends, s.pending, 0, m);
    }
    forall m, n | 0 <= m < n < |s.sends| && s.sends[m].outcome.Confirmed? && s.sends[n].outcome.Confirmed?
      ensures s.sends[m].nonce != s.sends[n].nonce
    {
      MinedApart(s.sends, s.pending, m, n);
    }
  }

  /** When every send is mined before the next is broadcast, as when no `wait()` rejects, the sends are exactly nonce,
      nonce + 1, nonce + 2, ... */
  lemma {:induction false} NoncesConsecutive(nonce: nat, ls: seq<Label>, i: nat)
    requires i < |Exec(Initial(nonce), ls).sends|
    requires MinedInTurn(Exec(Initial(nonce), ls).sends, i)
    ensures Exec(Initial(nonce), ls).sends[i].nonce == nonce + i
  {
    FirstNonce(nonce, ls);
    if i > 0 {
      NoncesConsecutive(nonce, ls, i - 1);
      AlwaysInv(nonce, ls);
      var ss := Exec(Initial(nonce), ls).sends;
      assert MinedAt(ss, i) && Reads(ss, i);
    }
  }

  lemma {:induction false} FirstNonce(nonce: nat, ls: seq<Label>)
    ensures var s := Exec(Initial(nonce), ls);
            && nonce <= s.pending
            && (s.sends == [] ==> s.pending == nonce)
            && (s.sends != [] ==> s.sends[0].nonce == nonce)
  {
    if ls != [] {
      FirstNonce(nonce, ls[..|ls| - 1]);
    }
  }

  /** Over every run with a non-decreasing clock: two claims of one wallet, or from one IP, are at least
      86,400 s apart, and a closed 86,400 s window starting anywhere holds at most 50 claims. */
  lemma FaucetLimits(nonce: nat, ls: seq<Label>, i: nat, j: nat, from: nat)
    requires i < j < |Exec(Initial(nonce), ls).claims|
    ensures var cs := Exec(Initial(nonce), ls).claims;
            && (cs[i].wallet == cs[j].wallet || cs[i].ip == cs[j].ip ==> cs[j].claimedAt - cs[i].claimedAt >= 86400)
            && (from <= cs[i].claimedAt && cs[j].claimedAt <= from + 86400 ==> j - i + 1 <= 50)
  {
    AlwaysInv(nonce, ls);
    var cs := Exec(Initial(nonce), ls).claims;
    if j - i >= DAILY_CAP {
      assert cs[i].claimedAt + RATE_LIMIT_WINDOW_S < cs[i + DAILY_CAP].claimedAt;
    }
  }
}
