/** Month epochs (YYYYMM): enumerateEpochs of src/services/bonds.ts and epochToMaturityTimestamp of
    indexer/src/index.ts. Months are also counted absolutely: year * 12 + zero-based month. */
module Calendar {
  const DAY_S: int := 86400

  // ---- the Gregorian calendar, by month lengths ----

  predicate Leap(y: int) {
    y % 4 == 0 && (y % 100 != 0 || y % 400 == 0)
  }

  function MonthLength(leap: bool, month: nat): nat
    requires month < 12
    ensures 28 <= MonthLength(leap, month) <= 31
  {
    if month == 1 then (if leap then 29 else 28)
    else if month == 3 || month == 5 || month == 8 || month == 10 then 30
    else 31
  }

  /** Days from the first day of year 0 to the first day of an absolute month. */
  function MonthStart(abs: nat): nat {
    if abs == 0 then 0 else MonthStart(abs - 1) + MonthLength(Leap((abs - 1) / 12), (abs - 1) % 12)
  }

  const EPOCH_DAY: int := 719528   // 1970-01-01

  ghost predicate InMonth(t: int, abs: nat) {
    (MonthStart(abs) - EPOCH_DAY) * DAY_S <= t < (MonthStart(abs + 1) - EPOCH_DAY) * DAY_S
  }

  lemma {:induction false} MonthsApart(abs: nat, n: nat)
    ensures 28 * n <= MonthStart(abs + n) - MonthStart(abs) <= 31 * n
  {
    if n > 0 {
      MonthsApart(abs, n - 1);
    }
  }

  lemma StartsIncrease(a: nat, b: nat)
    ensures a <= b ==> MonthStart(a) + 28 * (b - a) <= MonthStart(b)
  {
    if a <= b { MonthsApart(a, b - a); }
  }

  // ---- Date.UTC (sections 21.4.1.3, 21.4.1.29 and 21.4.3.4 of ECMA-262) ----

  /** DayFromYear. */
  function DayFromYear(y: int): int {
    365 * (y - 1970) + (y - 1969) / 4 - (y - 1901) / 100 + (y - 1601) / 400
  }

  /** The day within the year on which a month starts. */
  function DayOfMonthStart(leap: bool, month: nat): nat
    requires month < 12
  {
    [0, 31, 59, 90, 120, 151, 181, 212, 243, 273, 304, 334][month] + (if leap && month >= 2 then 1 else 0)
  }

  /** MakeDay(year, month, 1), months carried into years. */
  function MakeDay(abs: int): int {
    DayFromYear(abs / 12) + DayOfMonthStart(Leap(abs / 12), abs % 12)
  }

  /** Date.UTC(year, month - 1, 1) / 1000; Date.UTC reads years 0..99 as 1900..1999. */
  function Maturity(epoch: nat): int {
    var year := epoch / 100;
    MakeDay((if year <= 99 then 1900 + year else year) * 12 + (epoch % 100 - 1)) * DAY_S
  }

  lemma NextMultiple(x: int, k: int)
    requires k == 4 || k == 100 || k == 400
    ensures (x + 1) / k == x / k + (if (x + 1) % k == 0 then 1 else 0)
  {
  }

  lemma YearLength(y: int)
    ensures DayFromYear(y + 1) == DayFromYear(y) + (if Leap(y) then 366 else 365)
  {
    NextMultiple(y - 1969, 4);
    NextMultiple(y - 1901, 100);
    NextMultiple(y - 1601, 400);
    SameRemainders(y);
    FourHundred(y);
  }

  lemma SameRemainders(y: int)
    ensures (y - 1968) % 4 == y % 4
    ensures (y - 1900) % 100 == y % 100
    ensures (y - 1600) % 400 == y % 400
  {
    var a, b, c := y / 4, y / 100, y / 400;
    assert y - 1968 == 4 * (a - 492) + y % 4;
    assert y - 1900 == 100 * (b - 19) + y % 100;
    assert y - 1600 == 400 * (c - 4) + y % 400;
  }

  lemma FourHundred(y: int)
    ensures y % 400 == 0 ==> y % 100 == 0
    ensures y % 100 == 0 ==> y % 4 == 0
  {
  }

  lemma NextMonthInYear(leap: bool, month: nat)
    requires month < 12
    ensures if month == 11
            then DayOfMonthStart(leap, 11) + MonthLength(leap, 11) == if leap then 366 else 365
            else DayOfMonthStart(leap, month + 1) == DayOfMonthStart(leap, month) + MonthLength(leap, month)
  {
  }

  /** The closed formula of Date.UTC agrees with the calendar on every month from year 0 on. */
  lemma {:induction false} MakeDayIsGregorian(abs: nat)
    ensures MakeDay(abs) == MonthStart(abs) - EPOCH_DAY
  {
    if abs > 0 {
      var p: nat := abs - 1;
      MakeDayIsGregorian(p);
      MakeDayNext(p);
      assert MonthStart(abs) == MonthStart(p) + MonthLength(Leap(p / 12), p % 12);
    } else {
      assert MakeDay(0) == DayFromYear(0);
    }
  }

  lemma MakeDayNext(p: nat)
    ensures MakeDay(p + 1) == MakeDay(p) + MonthLength(Leap(p / 12), p % 12)
  {
    NextMonth(p);
    MakeDayStep(p / 12, p % 12);
  }

  /** The month after month m of year y. */
  lemma MakeDayStep(y: nat, m: nat)
    requires m < 12
    ensures DayFromYear(y) + DayOfMonthStart(Leap(y), m) + MonthLength(Leap(y), m)
            == if m == 11 then DayFromYear(y + 1) else DayFromYear(y) + DayOfMonthStart(Leap(y), m + 1)
  {
    NextMonthInYear(Leap(y), m);
    YearLength(y);
  }

  lemma NextMonth(p: nat)
    ensures if p % 12 == 11 then (p + 1) / 12 == p / 12 + 1 && (p + 1) % 12 == 0
            else (p + 1) / 12 == p / 12 && (p + 1) % 12 == p % 12 + 1
  {
  }

  // ---- epoch codes ----

  function Code(abs: nat): nat {
    abs / 12 * 100 + abs % 12 + 1
  }

  predicate IsCode(epoch: nat) {
    1 <= epoch % 100 <= 12 && epoch / 100 >= 100
  }

  /** The absolute month of a code. */
  function MonthOfCode(epoch: nat): nat
    requires IsCode(epoch)
  {
    epoch / 100 * 12 + (epoch % 100 - 1)
  }

  /** Dividing by 100 inverts the code, and its maturity is the first second of its month. */
  lemma CodeInverts(abs: nat)
    requires abs >= 1200
    ensures Code(abs) / 100 == abs / 12 && Code(abs) % 100 == abs % 12 + 1
    ensures IsCode(Code(abs)) && MonthOfCode(Code(abs)) == abs
    ensures Maturity(Code(abs)) == (MonthStart(abs) - EPOCH_DAY) * DAY_S
  {
    CodeSplits(abs / 12, abs % 12 + 1);
    CodeMaturity(Code(abs));
  }

  lemma CodeSplits(y: nat, r: nat)
    requires r < 100
    ensures (y * 100 + r) / 100 == y && (y * 100 + r) % 100 == r
  {
  }

  lemma CodeMaturity(e: nat)
    requires IsCode(e)
    ensures Maturity(e) == (MonthStart(MonthOfCode(e)) - EPOCH_DAY) * DAY_S
  {
    MakeDayIsGregorian(MonthOfCode(e));
  }

  /** Epoch order agrees with maturity-timestamp order on month codes ... */
  lemma MaturityOrder(e: nat, f: nat)
    requires IsCode(e) && IsCode(f)
    ensures e < f <==> Maturity(e) < Maturity(f)
  {
    CodeMaturity(e);
    CodeMaturity(f);
    CodeOrder(e, f);
    StartsIncrease(MonthOfCode(e), MonthOfCode(f));
    StartsIncrease(MonthOfCode(f), MonthOfCode(e));
  }

  lemma CodeOrder(e: nat, f: nat)
    requires IsCode(e) && IsCode(f)
    ensures e < f <==> MonthOfCode(e) < MonthOfCode(f)
  {
    var y, m, z, n := e / 100, e % 100, f / 100, f % 100;
    assert e == 100 * y + m && f == 100 * z + n;
  }

  /** ... and not beyond them: 202613 is larger than 202612 + 0 but matures with 202701. */
  lemma NotACode()
    ensures Maturity(202613) == Maturity(202701) && !IsCode(202613)
  {
    assert 202613 / 100 == 2026 && 202613 % 100 == 13;
    assert 202701 / 100 == 2027 && 202701 % 100 == 1;
  }

  // ---- enumeration ----

  const START: nat := 24312   // January 2026

  /** Candidate epochs: every month from 2026-01 to 27 months after the current one. */
  method EnumerateEpochs(year: nat, month: nat) returns (out: seq<nat>)
    requires month < 12
    ensures |out| == if year * 12 + month + 27 >= START then year * 12 + month + 28 - START else 0
    ensures forall i :: 0 <= i < |out| ==> out[i] == Code(START + i)
    ensures forall i, j :: 0 <= i < j < |out| ==> out[i] < out[j]
    ensures |out| > 0 ==> out[0] == 202601 && out[|out| - 1] == (year + 2 + (month + 3) / 12) * 100 + (month + 3) % 12 + 1
  {
    out := [];
    var abs := 2026 * 12 + 0;
    var endAbs := year * 12 + month + 27;
    while abs <= endAbs
      invariant START <= abs && |out| == abs - START
      invariant abs > START ==> abs <= endAbs + 1
      invariant forall i :: 0 <= i < |out| ==> out[i] == Code(START + i)
      invariant forall i, j :: 0 <= i < j < |out| ==> out[i] < out[j]
    {
      forall i | 0 <= i < |out| ensures out[i] < Code(abs) { CodesIncrease(START + i, abs); }
      out := out + [abs / 12 * 100 + (abs % 12 + 1)];
      abs := abs + 1;
    }
  }

  lemma CodesIncrease(a: nat, b: nat)
    requires a < b
    ensures Code(a) < Code(b)
  {
    assert a == a / 12 * 12 + a % 12 && b == b / 12 * 12 + b % 12;
    assert a / 12 <= b / 12;
  }

  lemma {:induction false} MonthOf(t: int, from: nat, n: nat) returns (abs: nat)
    requires (MonthStart(from) - EPOCH_DAY) * DAY_S <= t < (MonthStart(from + n) - EPOCH_DAY) * DAY_S
    ensures from <= abs < from + n && InMonth(t, abs)
  {
    if t >= (MonthStart(from + n - 1) - EPOCH_DAY) * DAY_S {
      abs := from + n - 1;
    } else {
      abs := MonthOf(t, from, n - 1);
    }
  }

  /** Any instant from 2026-01 through now + 730 days falls in an enumerated month. */
  lemma EnumerationCovers(now: int, current: nat, t: int) returns (i: nat)
    requires InMonth(now, current)
    requires (MonthStart(START) - EPOCH_DAY) * DAY_S <= t <= now + 730 * DAY_S
    ensures START + i <= current + 27 && InMonth(t, START + i)
  {
    MonthsApart(current + 1, 27);
    assert t < (MonthStart(current + 28) - EPOCH_DAY) * DAY_S;
    StartsIncrease(current + 28, START);
    var abs := MonthOf(t, START, current + 28 - START);
    i := abs - START;
  }
}
