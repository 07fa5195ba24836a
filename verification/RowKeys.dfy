/** The string ids of indexer/src/index.ts: `${productId}-${policyId}`, `${txHash}-${logIndex}`,
    `${txHash}-${logIndex}-${i}` and a listing id in decimal. */
module RowKeys {
  /** 0x-prefixed hexadecimal has no dash. */
  type Hex = s: string | '-' !in s witness ""

  function Digit(d: nat): char
    requires d < 10
  {
    '0' + d as char
  }

  /** BigInt.toString / Number interpolation. */
  function Dec(n: nat): (s: string)
    ensures s != [] && '-' !in s
  {
    if n < 10 then [Digit(n)] else Dec(n / 10) + [Digit(n % 10)]
  }

  function Value(s: string): int {
    if s == "" then 0 else 10 * Value(s[..|s| - 1]) + (s[|s| - 1] as int - '0' as int)
  }

  lemma {:induction false} ValueOfDec(n: nat)
    ensures Value(Dec(n)) == n
  {
    if n < 10 {
      assert [Digit(n)][..0] == "";
    } else {
      ValueOfDec(n / 10);
      assert Dec(n)[..|Dec(n)| - 1] == Dec(n / 10);
    }
  }

  lemma DecInjective(m: nat, n: nat)
    ensures Dec(m) == Dec(n) ==> m == n
  {
    ValueOfDec(m);
    ValueOfDec(n);
  }

  function PolicyKey(product: Hex, policy: nat): string {
    product + "-" + Dec(policy)
  }

  function LogKey(tx: Hex, logIndex: nat): string {
    tx + "-" + Dec(logIndex)
  }

  function LegKey(tx: Hex, logIndex: nat, i: nat): string {
    tx + "-" + (Dec(logIndex) + "-" + Dec(i))
  }

  lemma FirstDash(a: Hex, x: string)
    ensures var s := a + "-" + x;
            s[|a|] == '-' && (forall i :: 0 <= i < |a| ==> s[i] != '-') && s[..|a|] == a && s[|a| + 1..] == x
  {
    assert forall i :: 0 <= i < |a| ==> a[i] in a;
  }

  /** A dash-free head and its tail can be read back from head-tail. */
  lemma SplitAtDash(a: Hex, x: string, b: Hex, y: string)
    requires a + "-" + x == b + "-" + y
    ensures a == b && x == y
  {
    FirstDash(a, x);
    FirstDash(b, y);
  }

  /** Distinct (product, policy) pairs, and distinct (tx, log index[, leg]) tuples, never share an id. */
  lemma PolicyKeyInjective(p: Hex, i: nat, q: Hex, j: nat)
    ensures PolicyKey(p, i) == PolicyKey(q, j) ==> p == q && i == j
  {
    if PolicyKey(p, i) == PolicyKey(q, j) {
      SplitAtDash(p, Dec(i), q, Dec(j));
      DecInjective(i, j);
    }
  }

  lemma LogKeyInjective(t: Hex, i: nat, u: Hex, j: nat)
    ensures LogKey(t, i) == LogKey(u, j) ==> t == u && i == j
  {
    PolicyKeyInjective(t, i, u, j);
  }

  lemma LegKeyInjective(t: Hex, i: nat, k: nat, u: Hex, j: nat, m: nat)
    ensures LegKey(t, i, k) == LegKey(u, j, m) ==> t == u && i == j && k == m
  {
    if LegKey(t, i, k) == LegKey(u, j, m) {
      SplitAtDash(t, Dec(i) + "-" + Dec(k), u, Dec(j) + "-" + Dec(m));
      SplitAtDash(Dec(i), Dec(k), Dec(j), Dec(m));
      DecInjective(i, j);
      DecInjective(k, m);
    }
  }

  lemma LogKeyIsNoLegKey(t: Hex, i: nat, u: Hex, j: nat, m: nat)
    ensures LogKey(t, i) != LegKey(u, j, m)
  {
    FirstDash(Dec(j), Dec(m));
    assert '-' in Dec(j) + "-" + Dec(m);
    if LogKey(t, i) == LegKey(u, j, m) {
      SplitAtDash(t, Dec(i), u, Dec(j) + "-" + Dec(m));
    }
  }
}
