/** The faucet's table itself, and the two stretches of the locked claim body that touch it. */
module FaucetStore {
  import opened Basics
  import Lock
  import opened Claims
  import opened Relayer

  /** src/utils/faucetDb.ts over its table. */
  class FaucetDb {
    var rows: seq<ClaimRow>

    constructor ()
      ensures rows == []
    {
      rows := [];
    }

    method LastClaimByWallet(wallet: string) returns (r: Option<nat>)
      ensures r == LastByWallet(rows, wallet)
    {
      r := None;
      for i := 0 to |rows|
        invariant r == LastByWallet(rows[..i], wallet)
      {
        assert rows[..i + 1][..i] == rows[..i];
        if rows[i].wallet == wallet && (r.None? || r.value <= rows[i].claimedAt) {
          r := Some(rows[i].claimedAt);
        }
      }
      assert rows[..|rows|] == rows;
    }

    method LastClaimByIp(ip: string) returns (r: Option<nat>)
      ensures r == LastByIp(rows, ip)
    {
      r := None;
      for i := 0 to |rows|
        invariant r == LastByIp(rows[..i], ip)
      {
        assert rows[..i + 1][..i] == rows[..i];
        if rows[i].ip == ip && (r.None? || r.value <= rows[i].claimedAt) {
          r := Some(rows[i].claimedAt);
        }
      }
      assert rows[..|rows|] == rows;
    }

    method CountClaimsLast24h(nowS: nat) returns (n: nat)
      ensures n == CountSince(rows, nowS - 86400)
      ensures n == |set i: nat | i < |rows| && rows[i].claimedAt + 86400 >= nowS|
    {
      n := 0;
      for i := 0 to |rows|
        invariant n == CountSince(rows[..i], nowS - 86400)
      {
        assert rows[..i + 1][..i] == rows[..i];
        if rows[i].claimedAt >= nowS - 86400 {
          n := n + 1;
        }
      }
      assert rows[..|rows|] == rows;
      CountIsExact(rows, nowS - 86400);
      assert Recent(rows, nowS - 86400) == set i: nat | i < |rows| && rows[i].claimedAt + 86400 >= nowS;
    }

    method InsertClaim(wallet: string, ip: string, nowS: nat)
      modifies this
      ensures rows == old(rows) + [ClaimRow(wallet, ip, nowS)]
    {
      rows := rows + [ClaimRow(wallet, ip, nowS)];
    }

    /** The checks at the top of the locked body: 503 at the cap, then 429 for the wallet, then 429 for the IP. */
    method CheckClaim(wallet: string, ip: string, nowS: nat, capNowS: nat) returns (r: Result<nat, string>)
      ensures r.Ok? <==> Allowed(rows, wallet, ip, nowS, capNowS)
      ensures r.Ok? ==> r.value == nowS
      ensures r == Err("daily_cap_reached") <==> |set i: nat | i < |rows| && rows[i].claimedAt + 86400 >= capNowS| >= 50
      ensures r == Err("wallet_rate_limited") <==> r != Err("daily_cap_reached") && exists c :: c in rows && c.wallet == wallet && nowS < c.claimedAt + 86400
      ensures r == Err("ip_rate_limited") <==> r != Err("daily_cap_reached") && r != Err("wallet_rate_limited")
                                               && exists c :: c in rows && c.ip == ip && nowS < c.claimedAt + 86400
      ensures r.Err? ==> r.error == "daily_cap_reached" || r.error == "wallet_rate_limited" || r.error == "ip_rate_limited"
    {
      var claimsToday := CountClaimsLast24h(capNowS);
      if claimsToday >= DAILY_CAP {
        return Err("daily_cap_reached");
      }
      var lastWallet := LastClaimByWallet(wallet);
      if lastWallet.Some? && lastWallet.value + RATE_LIMIT_WINDOW_S > nowS {
        return Err("wallet_rate_limited");
      }
      var lastIp := LastClaimByIp(ip);
      if lastIp.Some? && lastIp.value + RATE_LIMIT_WINDOW_S > nowS {
        return Err("ip_rate_limited");
      }
      return Ok(nowS);
    }

    ghost predicate Matches(s: State) reads this {
      rows == s.claims
    }

    /** The checks are the machine's Check step: `now` is read first, the cap's clock `later` ms after it. */
    method Check(ghost s: State, ghost t: Lock.Task, wallet: string, ip: string, now: nat, later: nat) returns (r: Result<nat, string>)
      requires Matches(s) && HoldsKey(s, t) && s.jobs[t] == Job(Claim(wallet, ip), Fresh) && now == s.clock
      ensures rows == old(rows)
      ensures var s' := Apply(s, Label.Check(t, later));
              Matches(s') && s'.jobs[t].phase == if r.Ok? then Passed(r.value) else Thrown
    {
      r := CheckClaim(wallet, ip, now / 1000, (now + later) / 1000);
    }

    /** The insert is the machine's Record step, with the clock it reads itself. */
    method Record(ghost s: State, ghost t: Lock.Task, wallet: string, ip: string, now: nat)
      requires Matches(s) && HoldsKey(s, t) && s.jobs[t] == Job(Claim(wallet, ip), Mined(Eth)) && now == s.clock
      modifies this
      ensures Matches(Apply(s, Label.Record(t)))
    {
      InsertClaim(wallet, ip, now / 1000);
    }
  }
}
