/** Whole-run memory estimates from earlier runs (libexec/workload_estimates.py), in KiB. */
module WorkloadEstimates {
  import opened Common

  const WINDOW: nat := 50
  const MAX_RUNS: nat := 1000000

  /** What is remembered of a workload; the estimate is 1 GiB until a run is recorded. */
  datatype Row = Row(estimate: Option<nat>, peaks: seq<nat>, runs: nat)

  datatype Run = Run(peak: nat, complete: bool)

  /** Five quarters of a peak, rounded up. */
  function Padded(peak: nat): nat { (5 * peak + 3) / 4 }

  /** Nine tenths of an estimate, rounded up. */
  function Lowered(estimate: nat): nat { (9 * estimate + 9) / 10 }

  function LastOf(peaks: seq<nat>): (r: seq<nat>)
    ensures |r| <= WINDOW
  {
    if |peaks| <= WINDOW then peaks else peaks[|peaks| - WINDOW..]
  }

  // ------------------------------------------------------------------- sorting

  predicate Ascending(s: seq<nat>) { forall i, j :: 0 <= i < j < |s| ==> s[i] <= s[j] }

  function Insert(x: nat, s: seq<nat>): (r: seq<nat>)
    ensures |r| == |s| + 1
  {
    if s == [] || x <= s[0] then [x] + s else [s[0]] + Insert(x, s[1..])
  }

  function Sorted(s: seq<nat>): (r: seq<nat>)
    ensures |r| == |s|
  {
    if s == [] then [] else Insert(s[|s| - 1], Sorted(s[..|s| - 1]))
  }

  lemma {:induction false} InsertKeeps(x: nat, s: seq<nat>)
    ensures multiset(Insert(x, s)) == multiset(s) + multiset{x}
  {
    if s != [] && x > s[0] {
      assert s == [s[0]] + s[1..];
      InsertKeeps(x, s[1..]);
    }
  }

  lemma {:induction false} InsertAscends(x: nat, s: seq<nat>)
    requires Ascending(s)
    ensures Ascending(Insert(x, s)) && Insert(x, s)[0] == if s == [] || x <= s[0] then x else s[0]
  {
    if s != [] && x > s[0] {
      InsertAscends(x, s[1..]);
      FrontAscends(s[0], Insert(x, s[1..]));
    }
  }

  lemma FrontAscends(x: nat, s: seq<nat>)
    requires Ascending(s) && (s != [] ==> x <= s[0])
    ensures Ascending([x] + s)
  {
    assert forall k :: 0 < k < |s| ==> s[0] <= s[k];
  }

  lemma {:induction false} SortedIsSorted(s: seq<nat>)
    ensures Ascending(Sorted(s)) && multiset(Sorted(s)) == multiset(s)
  {
    if s != [] {
      assert s == s[..|s| - 1] + [s[|s| - 1]];
      SortedIsSorted(s[..|s| - 1]);
      InsertKeeps(s[|s| - 1], Sorted(s[..|s| - 1]));
      InsertAscends(s[|s| - 1], Sorted(s[..|s| - 1]));
    }
  }

  // ------------------------------------------------------------------ estimates

  /** Index of the 95th percentile among n sorted peaks. */
  function Percentile(n: nat): (k: nat)
    requires n > 0
    ensures k < n
  {
    (19 * n + 19) / 20 - 1
  }

  /** Half a GiB, or five quarters of the largest of the last peaks; of their 95th percentile
      after twenty runs. */
  function Estimate(prior: nat, peaks: seq<nat>, runs: nat): nat {
    if peaks == [] || runs == 0 then prior
    else
      var last := Sorted(LastOf(peaks));
      var peak := if runs < 20 then last[|last| - 1] else last[Percentile(|last|)];
      Max(GIB / 2, Padded(peak))
  }

  function Current(row: Row): nat { row.estimate.GetOr(GIB) }

  function Record(row: Row, run: Run): Row {
    if !run.complete then row.(estimate := Some(Max(Current(row), Padded(run.peak))))
    else
      var peaks := LastOf(row.peaks + [run.peak]);
      var runs := Min(MAX_RUNS, row.runs + 1);
      Row(Some(Max(Max(Estimate(Current(row), peaks, runs), Padded(run.peak)), Lowered(Current(row)))), peaks, runs)
  }

  function RecordAll(row: Row, history: seq<Run>): Row
    decreases |history|
  {
    if history == [] then row else Record(RecordAll(row, history[..|history| - 1]), history[|history| - 1])
  }

  /** The largest of some sorted peaks when every one must count; otherwise the first that, with
      those before it, makes up 95 percent of them. */
  ghost predicate Covers(peak: nat, last: seq<nat>, all: bool) {
    exists k: nat :: k < |last| && last[k] == peak
      && if all then k == |last| - 1 else 20 * k < 19 * |last| <= 20 * (k + 1)
  }

  /** The peak an estimate is based on is one of those remembered: the largest of them before
      the twentieth run, and then the least that covers 95 percent of them. */
  lemma {:induction false} PercentileCovers(peaks: seq<nat>, prior: nat, runs: nat) returns (peak: nat, last: seq<nat>)
    requires peaks != [] && runs > 0
    ensures multiset(last) == multiset(LastOf(peaks)) && Ascending(last) && |last| == |LastOf(peaks)|
    ensures Estimate(prior, peaks, runs) == Max(GIB / 2, Padded(peak)) && peak in multiset(LastOf(peaks))
    ensures Covers(peak, last, runs < 20)
  {
    last := Sorted(LastOf(peaks));
    SortedIsSorted(LastOf(peaks));
    var k := if runs < 20 then |last| - 1 else Percentile(|last|);
    peak := last[k];
    assert peak in multiset(last);
  }

  /** A run never lowers an estimate by more than a tenth, nor below five quarters of its own
      peak; a run that was not completely observed does not lower it at all. */
  lemma OneRun(row: Row, run: Run)
    ensures var after := Current(Record(row, run));
      && after >= Padded(run.peak) && after >= Lowered(Current(row)) && 10 * after >= 9 * Current(row)
      && (!run.complete ==>
            after >= Current(row) && Record(row, run).peaks == row.peaks && Record(row, run).runs == row.runs)
  {
  }

  /** The estimate n lowerings later. */
  function Decayed(estimate: nat, n: nat): nat { if n == 0 then estimate else Lowered(Decayed(estimate, n - 1)) }

  function Completed(history: seq<Run>): nat {
    if history == [] then 0 else Completed(history[..|history| - 1]) + if history[|history| - 1].complete then 1 else 0
  }

  lemma {:induction false} DecayedFrom(low: nat, high: nat, n: nat)
    requires low <= high
    ensures Decayed(low, n) <= Decayed(high, n)
  {
    if n > 0 {
      DecayedFrom(low, high, n - 1);
    }
  }

  /** Over any history an estimate falls by at most a tenth for each complete run. */
  lemma {:induction false} FallsSlowly(row: Row, history: seq<Run>)
    ensures Current(RecordAll(row, history)) >= Decayed(Current(row), Completed(history))
    decreases |history|
  {
    if history != [] {
      var front := history[..|history| - 1];
      FallsSlowly(row, front);
      OneRun(RecordAll(row, front), history[|history| - 1]);
    }
  }

  /** So a peak seen once holds the estimate up for as long: n complete runs later it is still
      five quarters of that peak, lowered n times. */
  lemma PeakHolds(row: Row, before: seq<Run>, run: Run, later: seq<Run>)
    ensures Current(RecordAll(RecordAll(row, before + [run]), later)) >= Decayed(Padded(run.peak), Completed(later))
  {
    var all := before + [run];
    assert all[..|all| - 1] == before;
    OneRun(RecordAll(row, before), run);
    FallsSlowly(RecordAll(row, all), later);
    DecayedFrom(Padded(run.peak), Current(RecordAll(row, all)), Completed(later));
  }

  // ---------------------------------------------------------------- convergence

  /** Each row is the one before after a complete run with peak p. */
  predicate Link(rows: seq<Row>, p: nat, k: nat)
    requires 0 < k < |rows|
  {
    rows[k] == Record(rows[k - 1], Run(p, true))
  }

  predicate Repeated(rows: seq<Row>, p: nat) { forall k :: 0 < k < |rows| ==> Link(rows, p, k) }

  function Target(p: nat): nat { Max(GIB / 2, Padded(p)) }

  predicate AllAre(peaks: seq<nat>, p: nat) { forall k :: 0 <= k < |peaks| ==> peaks[k] == p }

  lemma EqualPeaks(prior: nat, peaks: seq<nat>, runs: nat, p: nat)
    requires peaks != [] && runs > 0 && AllAre(peaks, p)
    ensures Estimate(prior, peaks, runs) == Target(p)
  {
    var peak, last := PercentileCovers(peaks, prior, runs);
    assert peak in LastOf(peaks);
  }

  predicate EndsWith(peaks: seq<nat>, p: nat, n: nat) {
    |peaks| >= n && forall k :: |peaks| - n <= k < |peaks| ==> peaks[k] == p
  }

  lemma WindowMoves(peaks: seq<nat>, p: nat, n: nat)
    requires EndsWith(peaks, p, n)
    ensures EndsWith(LastOf(peaks + [p]), p, if n < WINDOW then n + 1 else WINDOW)
  {
  }

  /** The last peaks remembered are those of the last runs. */
  lemma {:induction false} WindowFills(rows: seq<Row>, p: nat, n: nat)
    requires n < |rows| && Repeated(rows, p)
    ensures EndsWith(rows[n].peaks, p, if n < WINDOW then n else WINDOW)
    ensures n > 0 ==> |rows[n].peaks| <= WINDOW && rows[n].runs > 0
  {
    if n > 0 {
      WindowFills(rows, p, n - 1);
      WindowMoves(rows[n - 1].peaks, p, if n - 1 < WINDOW then n - 1 else WINDOW);
      assert Link(rows, p, n);
    }
  }

  /** Above its target, an estimate falls by at least one KiB; it never falls below. */
  predicate Fell(target: nat, before: nat, after: nat) { target <= after <= Max(target, before - 1) }

  lemma SteadyRecord(row: Row, p: nat)
    requires var peaks := LastOf(row.peaks + [p]); peaks != [] && AllAre(peaks, p)
    ensures Fell(Target(p), Current(row), Current(Record(row, Run(p, true))))
  {
    EqualPeaks(Current(row), LastOf(row.peaks + [p]), Min(MAX_RUNS, row.runs + 1), p);
  }

  lemma SteadyRun(rows: seq<Row>, p: nat, n: nat)
    requires WINDOW <= n && n + 1 < |rows| && Repeated(rows, p)
    ensures Fell(Target(p), Current(rows[n]), Current(rows[n + 1]))
  {
    WindowFills(rows, p, n);
    assert Link(rows, p, n + 1);
    SteadyRecord(rows[n], p);
  }

  lemma {:induction false} Falls(rows: seq<Row>, target: nat, from: nat, n: nat)
    requires from <= n < |rows|
    requires forall k :: from <= k < n ==> Fell(target, Current(rows[k]), Current(rows[k + 1]))
    ensures Current(rows[n]) <= Max(target, Current(rows[from]) - (n - from))
      && (n > from ==> Current(rows[n]) >= target)
    decreases n
  {
    if n > from {
      Falls(rows, target, from, n - 1);
      assert Fell(target, Current(rows[n - 1]), Current(rows[n - 1 + 1]));
    }
  }

  /** A workload whose peak is always p is estimated at five quarters of p, or half a GiB,
      after finitely many runs, and from then on. */
  lemma Converges(rows: seq<Row>, p: nat, n: nat)
    requires WINDOW <= n < |rows| && Repeated(rows, p) && n > WINDOW + Current(rows[WINDOW])
    ensures Current(rows[n]) == Target(p)
  {
    forall k | WINDOW <= k < n ensures Fell(Target(p), Current(rows[k]), Current(rows[k + 1])) {
      SteadyRun(rows, p, k);
    }
    Falls(rows, Target(p), WINDOW, n);
  }
}
