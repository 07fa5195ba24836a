/** The faucet_claims table of src/utils/faucetDb.ts: its queries, the gates of src/routes/faucet.ts over them, and the
    spacing they keep. */
module Claims {
  import opened Basics

  const DAILY_CAP: nat := 50
  const RATE_LIMIT_WINDOW_S: nat := 86400

  /** A row of faucet_claims. */
  datatype ClaimRow = ClaimRow(wallet: string, ip: string, claimedAt: nat)

  /** SELECT claimed_at ... WHERE wallet = ? ORDER BY claimed_at DESC LIMIT 1. */
  function LastByWallet(cs: seq<ClaimRow>, wallet: string): (r: Option<nat>)
    ensures r.None? <==> forall c :: c in cs ==> c.wallet != wallet
    ensures r.Some? ==> (exists c :: c in cs && c.wallet == wallet && c.claimedAt == r.value)
                        && forall c :: c in cs && c.wallet == wallet ==> c.claimedAt <= r.value
  {
    if cs == [] then None else
      var r := LastByWallet(cs[..|cs| - 1], wallet);
      var c := cs[|cs| - 1];
      assert cs == cs[..|cs| - 1] + [c];
      if c.wallet == wallet && (r.None? || r.value <= c.claimedAt) then Some(c.claimedAt) else r
  }

  function LastByIp(cs: seq<ClaimRow>, ip: string): (r: Option<nat>)
    ensures r.None? <==> forall c :: c in cs ==> c.ip != ip
    ensures r.Some? ==> (exists c :: c in cs && c.ip == ip && c.claimedAt == r.value)
                        && forall c :: c in cs && c.ip == ip ==> c.claimedAt <= r.value
  {
    if cs == [] then None else
      var r := LastByIp(cs[..|cs| - 1], ip);
      var c := cs[|cs| - 1];
      assert cs == cs[..|cs| - 1] + [c];
      if c.ip == ip && (r.None? || r.value <= c.claimedAt) then Some(c.claimedAt) else r
  }

  /** SELECT COUNT(*) ... WHERE claimed_at >= cutoff; the cutoff may be negative. */
  function CountSince(cs: seq<ClaimRow>, cutoff: int): nat {
    if cs == [] then 0 else
      CountSince(cs[..|cs| - 1], cutoff) + (if cs[|cs| - 1].claimedAt >= cutoff then 1 else 0)
  }

  /** The rows stamped at or after the cutoff. */
  function Recent(cs: seq<ClaimRow>, cutoff: int): set<nat> {
    set i: nat | i < |cs| && cs[i].claimedAt >= cutoff
  }

  /** The count is the number of rows in the window, no more and no less. */
  lemma {:induction false} CountIsExact(cs: seq<ClaimRow>, cutoff: int)
    ensures CountSince(cs, cutoff) == |set i: nat | i < |cs| && cs[i].claimedAt >= cutoff|
  {
    if cs == [] {
      assert Recent(cs, cutoff) == {};
    } else {
      var n := |cs| - 1;
      CountIsExact(cs[..n], cutoff);
      assert Recent(cs, cutoff) == Recent(cs[..n], cutoff) + (if cs[n].claimedAt >= cutoff then {n} else {});
      assert n !in Recent(cs[..n], cutoff);
    }
  }

  predicate Cooling(last: Option<nat>, now: nat) {
    last.Some? && last.value + RATE_LIMIT_WINDOW_S > now
  }

  /** The three gates, in the order the handler applies them. */
  predicate Allowed(cs: seq<ClaimRow>, wallet: string, ip: string, now: nat, capNow: nat) {
    && CountSince(cs, capNow - 86400) < DAILY_CAP
    && !Cooling(LastByWallet(cs, wallet), now)
    && !Cooling(LastByIp(cs, ip), now)
  }

  ghost predicate Spaced(cs: seq<ClaimRow>) {
    forall i, j :: 0 <= i < j < |cs| ==>
      && cs[i].claimedAt <= cs[j].claimedAt
      && (cs[i].wallet == cs[j].wallet || cs[i].ip == cs[j].ip ==> cs[i].claimedAt + RATE_LIMIT_WINDOW_S <= cs[j].claimedAt)
  }

  /** In time order, claim i and claim i + 50 are more than a window apart. */
  ghost predicate Capped(cs: seq<ClaimRow>) {
    forall i :: 0 <= i && i + DAILY_CAP < |cs| ==> cs[i].claimedAt + RATE_LIMIT_WINDOW_S < cs[i + DAILY_CAP].claimedAt
  }

  lemma {:induction false} CountSinceSuffix(cs: seq<ClaimRow>, cutoff: int, k: nat)
    requires Spaced(cs) && k < |cs| && cs[k].claimedAt >= cutoff
    ensures CountSince(cs, cutoff) >= |cs| - k
  {
    var n := |cs| - 1;
    if k < n {
      CountSinceSuffix(cs[..n], cutoff, k);
    }
  }

  /** Appending a claim that passed the gates keeps the table spaced and capped. */
  lemma InsertKeepsSpacing(cs: seq<ClaimRow>, c: ClaimRow, now: nat, capNow: nat)
    requires Spaced(cs) && Capped(cs)
    requires Allowed(cs, c.wallet, c.ip, now, capNow) && now <= capNow <= c.claimedAt
    requires forall i :: 0 <= i < |cs| ==> cs[i].claimedAt <= c.claimedAt
    ensures Spaced(cs + [c]) && Capped(cs + [c])
  {
    forall i | 0 <= i < |cs| && (cs[i].wallet == c.wallet || cs[i].ip == c.ip)
      ensures cs[i].claimedAt + RATE_LIMIT_WINDOW_S <= c.claimedAt
    {
      assert cs[i] in cs;
    }
    CapHolds(cs, c, capNow);
  }

  lemma CapHolds(cs: seq<ClaimRow>, c: ClaimRow, capNow: nat)
    requires Spaced(cs) && Capped(cs) && CountSince(cs, capNow - 86400) < DAILY_CAP && capNow <= c.claimedAt
    ensures Capped(cs + [c])
  {
    if |cs| >= DAILY_CAP {
      var k := |cs| - DAILY_CAP;
      if cs[k].claimedAt >= capNow - 86400 {
        CountSinceSuffix(cs, capNow - 86400, k);
      }
    }
  }
}
