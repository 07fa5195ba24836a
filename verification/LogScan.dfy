/** The windowed log scan of src/services/bonds.ts (paginatedQueryFilter). The node is an oracle: `logs` are
    all matching logs of the chain in order, and `down(start, attempt)` says whether the given attempt at the
    window starting at `start` rejects. */
module LogScan {
  const WINDOW: nat := 45_000
  const MAX_RETRIES: nat := 3
  const CONCURRENCY: nat := 6

  datatype Log = Log(block: nat, index: nat)

  datatype Window = Window(from: nat, to: nat)

  type Oracle = (nat, nat) -> bool

  predicate Ordered(logs: seq<Log>) {
    forall i, j :: 0 <= i < j < |logs| ==> logs[i].block <= logs[j].block
  }

  /** One plain query over [from, to]. */
  function Range(logs: seq<Log>, lo: int, hi: int): seq<Log> {
    if logs == [] then [] else
      var n := |logs| - 1;
      Range(logs[..n], lo, hi) + (if lo <= logs[n].block <= hi then [logs[n]] else [])
  }

  function Windows(lo: nat, hi: nat): seq<Window>
    decreases hi - lo
  {
    if hi < lo then [] else
      [Window(lo, if lo + WINDOW - 1 <= hi then lo + WINDOW - 1 else hi)] + Windows(lo + WINDOW, hi)
  }

  /** All three attempts at the window starting at `start` reject. */
  predicate Dead(down: Oracle, start: nat) {
    down(start, 0) && down(start, 1) && down(start, 2)
  }

  function Fetched(logs: seq<Log>, down: Oracle, w: Window): seq<Log> {
    if Dead(down, w.from) then [] else Range(logs, w.from, w.to)
  }

  function Scan(logs: seq<Log>, down: Oracle, ws: seq<Window>): seq<Log> {
    if ws == [] then [] else Scan(logs, down, ws[..|ws| - 1]) + Fetched(logs, down, ws[|ws| - 1])
  }

  /** The window a block of [from, ..] falls in starts here. */
  function StartOf(lo: nat, block: nat): nat
    requires lo <= block
  {
    lo + (block - lo) / WINDOW * WINDOW
  }

  /** The logs of `logs` in [from, to] whose window answered at least once. */
  function Surviving(logs: seq<Log>, down: Oracle, lo: nat, hi: nat): seq<Log> {
    if logs == [] then [] else
      var n := |logs| - 1;
      Surviving(logs[..n], down, lo, hi)
      + (if lo <= logs[n].block <= hi && !Dead(down, StartOf(lo, logs[n].block)) then [logs[n]] else [])
  }

  // ---- tiling ----

  lemma {:induction false} WindowAt(lo: nat, hi: nat, i: nat)
    requires i < |Windows(lo, hi)|
    ensures var w := Windows(lo, hi)[i];
            && w.from == lo + i * WINDOW && w.from <= w.to <= hi
            && w.to == (if w.from + WINDOW - 1 <= hi then w.from + WINDOW - 1 else hi)
    decreases hi - lo
  {
    if i > 0 {
      WindowAt(lo + WINDOW, hi, i - 1);
    }
  }

  lemma {:induction false} WindowCount(lo: nat, hi: nat)
    ensures |Windows(lo, hi)| == if hi < lo then 0 else (hi - lo) / WINDOW + 1
    decreases hi - lo
  {
    if lo <= hi {
      WindowCount(lo + WINDOW, hi);
    }
  }

  /** The windows tile [from, to]: each spans 1 to 45,000 blocks, the first starts at `from`, the last ends at
      `hi`, each starts right after its predecessor, and every block of the range is in exactly one. */
  lemma WindowsTile(lo: nat, hi: nat, i: nat, block: nat)
    requires lo <= hi && i < |Windows(lo, hi)|
    ensures var ws := Windows(lo, hi);
            && 1 <= ws[i].to - ws[i].from + 1 <= 45_000
            && ws[0].from == lo && ws[|ws| - 1].to == hi
            && (i + 1 < |ws| ==> ws[i + 1].from == ws[i].to + 1)
            && (lo <= block <= hi ==> (ws[i].from <= block <= ws[i].to <==> i == (block - lo) / WINDOW))
            && (lo <= block <= hi ==> (block - lo) / WINDOW < |ws|)
  {
    WindowCount(lo, hi);
    WindowAt(lo, hi, i);
    WindowAt(lo, hi, 0);
    WindowAt(lo, hi, |Windows(lo, hi)| - 1);
    if i + 1 < |Windows(lo, hi)| { WindowAt(lo, hi, i + 1); }
  }

  // ---- refinement of the plain query ----

  lemma {:induction false} SurvivingSplit(logs: seq<Log>, down: Oracle, lo: nat, hi: nat)
    requires Ordered(logs) && lo + WINDOW <= hi
    ensures Surviving(logs, down, lo, hi)
         == Surviving(logs, down, lo, lo + WINDOW - 1) + Surviving(logs, down, lo + WINDOW, hi)
  {
    if logs != [] {
      var n := |logs| - 1;
      SurvivingSplit(logs[..n], down, lo, hi);
      var mid, b := lo + WINDOW, logs[n].block;
      if b < mid {
        NoneSurviveAbove(logs[..n], down, mid, hi);
        assert Surviving(logs, down, mid, hi) == [];
      } else {
        SameStart(lo, mid, b);
        assert Surviving(logs, down, lo, mid - 1) == Surviving(logs[..n], down, lo, mid - 1);
      }
    }
  }

  lemma SameStart(lo: nat, mid: nat, b: nat)
    requires lo <= mid <= b && (mid - lo) % WINDOW == 0
    ensures StartOf(lo, b) == StartOf(mid, b)
  {
    assert (b - lo) / WINDOW == (mid - lo) / WINDOW + (b - mid) / WINDOW;
  }

  lemma {:induction false} NoneSurviveAbove(logs: seq<Log>, down: Oracle, mid: nat, hi: nat)
    requires forall i :: 0 <= i < |logs| ==> logs[i].block < mid
    ensures Surviving(logs, down, mid, hi) == []
  {
    if logs != [] { NoneSurviveAbove(logs[..|logs| - 1], down, mid, hi); }
  }

  /** One window's share of the result. */
  lemma {:induction false} FetchedIsSurviving(logs: seq<Log>, down: Oracle, w: Window)
    requires w.to < w.from + WINDOW
    ensures Fetched(logs, down, w) == Surviving(logs, down, w.from, w.to)
  {
    if logs != [] {
      var n := |logs| - 1;
      FetchedIsSurviving(logs[..n], down, w);
    }
  }

  lemma {:induction false} ScanAppend(logs: seq<Log>, down: Oracle, a: seq<Window>, b: seq<Window>)
    ensures Scan(logs, down, a + b) == Scan(logs, down, a) + Scan(logs, down, b)
  {
    if b == [] {
      assert a + b == a && Scan(logs, down, b) == [];
    } else {
      var b0, w := b[..|b| - 1], b[|b| - 1];
      assert b0 + [w] == b;
      ScanAppend(logs, down, a, b0);
      ScanAppendLast(logs, down, a, b0, w);
    }
  }

  lemma ScanAppendLast(logs: seq<Log>, down: Oracle, a: seq<Window>, b: seq<Window>, w: Window)
    requires Scan(logs, down, a + b) == Scan(logs, down, a) + Scan(logs, down, b)
    ensures Scan(logs, down, a + (b + [w])) == Scan(logs, down, a) + Scan(logs, down, b + [w])
  {
    Assoc(a, b, [w]);
    ScanLast(logs, down, a + b, w);
    ScanLast(logs, down, b, w);
    Assoc(Scan(logs, down, a), Scan(logs, down, b), Fetched(logs, down, w));
  }

  lemma ScanLast(logs: seq<Log>, down: Oracle, ws: seq<Window>, w: Window)
    ensures Scan(logs, down, ws + [w]) == Scan(logs, down, ws) + Fetched(logs, down, w)
  {
    assert (ws + [w])[..|ws|] == ws;
  }

  lemma Assoc<T>(a: seq<T>, b: seq<T>, c: seq<T>)
    ensures (a + b) + c == a + (b + c)
  {
  }

  /** The windowed scan returns, in order, exactly the logs of the range whose window did not fail 3 times. */
  lemma {:induction false} ScanRefinesQuery(logs: seq<Log>, down: Oracle, lo: nat, hi: nat)
    requires Ordered(logs)
    ensures Scan(logs, down, Windows(lo, hi)) == Surviving(logs, down, lo, hi)
    decreases hi - lo
  {
    if hi < lo {
      NoneInEmptyRange(logs, down, lo, hi);
    } else {
      FirstWindow(logs, down, lo, hi);
      ScanRefinesQuery(logs, down, lo + WINDOW, hi);
      FirstWindowSplit(logs, down, lo, hi);
    }
  }

  /** The end of the window starting at lo. */
  function Last(lo: nat, hi: nat): nat {
    if lo + WINDOW - 1 <= hi then lo + WINDOW - 1 else hi
  }

  lemma FirstWindow(logs: seq<Log>, down: Oracle, lo: nat, hi: nat)
    requires lo <= hi
    ensures Scan(logs, down, Windows(lo, hi))
         == Surviving(logs, down, lo, Last(lo, hi)) + Scan(logs, down, Windows(lo + WINDOW, hi))
  {
    var w, rest := Window(lo, Last(lo, hi)), Windows(lo + WINDOW, hi);
    assert Windows(lo, hi) == [w] + rest;
    ScanAppend(logs, down, [w], rest);
    ScanOne(logs, down, w);
    FetchedIsSurviving(logs, down, w);
  }

  lemma ScanOne(logs: seq<Log>, down: Oracle, w: Window)
    ensures Scan(logs, down, [w]) == Fetched(logs, down, w)
  {
    ScanLast(logs, down, [], w);
    assert [] + [w] == [w];
  }

  lemma FirstWindowSplit(logs: seq<Log>, down: Oracle, lo: nat, hi: nat)
    requires Ordered(logs) && lo <= hi
    ensures Surviving(logs, down, lo, hi)
         == Surviving(logs, down, lo, Last(lo, hi)) + Surviving(logs, down, lo + WINDOW, hi)
  {
    if lo + WINDOW <= hi {
      SurvivingSplit(logs, down, lo, hi);
    } else {
      NoneInEmptyRange(logs, down, lo + WINDOW, hi);
    }
  }

  lemma {:induction false} NoneInEmptyRange(logs: seq<Log>, down: Oracle, lo: nat, hi: nat)
    requires hi < lo
    ensures Surviving(logs, down, lo, hi) == [] && Range(logs, lo, hi) == []
  {
    if logs != [] { NoneInEmptyRange(logs[..|logs| - 1], down, lo, hi); }
  }

  /** When no window fails 3 times the scan is the one plain query over [from, to]. */
  lemma {:induction false} NoFailureNoLoss(logs: seq<Log>, down: Oracle, lo: nat, hi: nat)
    requires forall start :: !Dead(down, start)
    ensures Surviving(logs, down, lo, hi) == Range(logs, lo, hi)
  {
    if logs != [] { NoFailureNoLoss(logs[..|logs| - 1], down, lo, hi); }
  }

  /** A log of the range is missing iff its own window failed 3 times. */
  lemma {:induction false} MissingIffDead(logs: seq<Log>, down: Oracle, lo: nat, hi: nat, x: Log)
    requires x in logs && lo <= x.block <= hi
    ensures x in Surviving(logs, down, lo, hi) <==> !Dead(down, StartOf(lo, x.block))
  {
    var n := |logs| - 1;
    assert logs == logs[..n] + [logs[n]];
    if x in logs[..n] {
      MissingIffDead(logs[..n], down, lo, hi, x);
    } else {
      SurvivingIsPart(logs[..n], down, lo, hi);
    }
  }

  lemma {:induction false} SurvivingIsPart(logs: seq<Log>, down: Oracle, lo: nat, hi: nat)
    ensures forall x :: x in Surviving(logs, down, lo, hi) ==> x in logs && lo <= x.block <= hi
  {
    if logs != [] {
      SurvivingIsPart(logs[..|logs| - 1], down, lo, hi);
    }
  }

  // ---- the code ----

  /** fetchWindow: up to 3 attempts, sleeping 1 s and then 2 s between them. */
  method FetchWindow(logs: seq<Log>, down: Oracle, w: Window) returns (out: seq<Log>, tries: nat, sleptMs: nat)
    ensures out == Fetched(logs, down, w)
    ensures 1 <= tries <= 3
    ensures forall a :: 0 <= a < tries - 1 ==> down(w.from, a)
    ensures tries < 3 ==> !down(w.from, tries - 1)
    ensures sleptMs == (if tries == 1 then 0 else if tries == 2 then 1000 else 3000)
  {
    var attempt := 0;
    sleptMs := 0;
    while attempt < MAX_RETRIES
      invariant attempt <= MAX_RETRIES
      invariant forall a :: 0 <= a < attempt ==> down(w.from, a)
      invariant attempt < MAX_RETRIES ==> sleptMs == (if attempt == 0 then 0 else if attempt == 1 then 1000 else 3000)
      invariant attempt == MAX_RETRIES ==> sleptMs == 3000
    {
      if !down(w.from, attempt) {
        out := Range(logs, w.from, w.to);
        tries := attempt + 1;
        return;
      }
      attempt := attempt + 1;
      if attempt >= MAX_RETRIES {
        break;
      }
      sleptMs := sleptMs + (if attempt == 1 then 1000 else 2000);
    }
    out := [];
    tries := attempt;
  }

  method BuildWindows(lo: nat, hi: nat) returns (windows: seq<Window>)
    ensures windows == Windows(lo, hi)
  {
    windows := [];
    var f := lo;
    while f <= hi
      invariant windows + Windows(f, hi) == Windows(lo, hi)
      decreases hi + WINDOW - f
    {
      var last := if f + WINDOW - 1 <= hi then f + WINDOW - 1 else hi;
      assert windows + Windows(f, hi) == (windows + [Window(f, last)]) + Windows(f + WINDOW, hi);
      windows := windows + [Window(f, last)];
      f := f + WINDOW;
    }
  }

  /** Promise.all over one batch; results are appended in window order. */
  method RunBatch(logs: seq<Log>, down: Oracle, batch: seq<Window>) returns (out: seq<Log>)
    ensures out == Scan(logs, down, batch)
  {
    out := [];
    for k := 0 to |batch|
      invariant out == Scan(logs, down, batch[..k])
    {
      var r, _, _ := FetchWindow(logs, down, batch[k]);
      assert batch[..k + 1][..k] == batch[..k];
      out := out + r;
    }
    assert batch[..|batch|] == batch;
  }

  lemma ConcatLast(batches: seq<seq<Window>>, batch: seq<Window>)
    ensures Concat(batches + [batch]) == Concat(batches) + batch
  {
    assert (batches + [batch])[..|batches|] == batches;
  }

  predicate AtMostSix(batches: seq<seq<Window>>) {
    forall b :: b in batches ==> 1 <= |b| <= 6
  }

  /** Every batch but the last is full. */
  predicate SixEach(batches: seq<seq<Window>>) {
    forall k :: 0 <= k < |batches| - 1 ==> |batches[k]| == 6
  }

  lemma SixLast(batches: seq<seq<Window>>, batch: seq<Window>)
    requires AtMostSix(batches) && 1 <= |batch| <= 6 && forall k :: 0 <= k < |batches| ==> |batches[k]| == 6
    ensures AtMostSix(batches + [batch]) && SixEach(batches + [batch])
    ensures |batch| == 6 ==> forall k :: 0 <= k < |batches + [batch]| ==> |(batches + [batch])[k]| == 6
  {
  }

  /** The whole scan. `batches` lists the windows queried together, in the order the batches run. */
  method PaginatedQueryFilter(logs: seq<Log>, down: Oracle, lo: nat, hi: nat)
    returns (out: seq<Log>, batches: seq<seq<Window>>)
    requires Ordered(logs)
    ensures out == Surviving(logs, down, lo, hi)
    ensures AtMostSix(batches) && SixEach(batches) && Concat(batches) == Windows(lo, hi)
  {
    ScanRefinesQuery(logs, down, lo, hi);
    if hi < lo {
      return [], [];
    }
    var windows := BuildWindows(lo, hi);
    out, batches := RunAll(logs, down, windows);
  }

  method RunAll(logs: seq<Log>, down: Oracle, windows: seq<Window>) returns (out: seq<Log>, batches: seq<seq<Window>>)
    ensures out == Scan(logs, down, windows)
    ensures AtMostSix(batches) && SixEach(batches) && Concat(batches) == windows
  {
    out, batches := [], [];
    var i := 0;
    while i < |windows|
      invariant i <= |windows|
      invariant out == Scan(logs, down, windows[..i])
      invariant AtMostSix(batches) && SixEach(batches) && Concat(batches) == windows[..i]
      invariant i < |windows| ==> forall k :: 0 <= k < |batches| ==> |batches[k]| == 6
    {
      var stop := if i + CONCURRENCY <= |windows| then i + CONCURRENCY else |windows|;
      var batch := windows[i..stop];
      var results := RunBatch(logs, down, batch);
      ScanAppend(logs, down, windows[..i], batch);
      ConcatLast(batches, batch);
      SixLast(batches, batch);
      assert windows[..stop] == windows[..i] + batch;
      out, batches, i := out + results, batches + [batch], stop;
    }
    assert windows[..i] == windows;
  }

  function Concat(batches: seq<seq<Window>>): seq<Window> {
    if batches == [] then [] else Concat(batches[..|batches| - 1]) + batches[|batches| - 1]
  }
}
