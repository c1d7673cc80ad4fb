/** What one recorded run makes of an estimate, in figures (libexec/workload_estimates.py). */
module Estimates {
  import opened Common
  import opened WorkloadEstimates

  /** Five quarters of a peak, rounded up. */
  predicate QuarterMore(kb: nat, peak: nat) { 5 * peak <= 4 * kb <= 5 * peak + 3 }

  /** Nine tenths of an estimate, rounded up. */
  predicate TenthLess(kb: nat, estimate: nat) { 9 * estimate <= 10 * kb <= 9 * estimate + 9 }

  /** How many are no larger, and how many are smaller. */
  function AtMost(peaks: seq<nat>, x: nat): nat {
    if peaks == [] then 0 else AtMost(peaks[1..], x) + if peaks[0] <= x then 1 else 0
  }

  function Below(peaks: seq<nat>, x: nat): nat {
    if peaks == [] then 0 else Below(peaks[1..], x) + if peaks[0] < x then 1 else 0
  }

  // -------------------------------------------------------------------- counting

  lemma {:induction false} CountsJoin(a: seq<nat>, b: seq<nat>, x: nat)
    ensures AtMost(a + b, x) == AtMost(a, x) + AtMost(b, x) && Below(a + b, x) == Below(a, x) + Below(b, x)
  {
    if a == [] {
      assert a + b == b;
    } else {
      assert (a + b)[1..] == a[1..] + b;
      CountsJoin(a[1..], b, x);
    }
  }

  lemma {:induction false} InsertCounts(y: nat, s: seq<nat>, x: nat)
    ensures AtMost(Insert(y, s), x) == AtMost(s, x) + (if y <= x then 1 else 0)
    ensures Below(Insert(y, s), x) == Below(s, x) + (if y < x then 1 else 0)
  {
    if s == [] || y <= s[0] {
      assert ([y] + s)[1..] == s;
    } else {
      InsertCounts(y, s[1..], x);
      assert ([s[0]] + Insert(y, s[1..]))[1..] == Insert(y, s[1..]);
    }
  }

  lemma {:induction false} SortedCounts(s: seq<nat>, x: nat)
    ensures AtMost(Sorted(s), x) == AtMost(s, x) && Below(Sorted(s), x) == Below(s, x)
  {
    if s != [] {
      var n := |s| - 1;
      SortedCounts(s[..n], x);
      InsertCounts(s[n], Sorted(s[..n]), x);
      CountsJoin(s[..n], [s[n]], x);
      assert s == s[..n] + [s[n]];
    }
  }

  lemma {:induction false} AllAtMost(s: seq<nat>, x: nat)
    requires forall k :: 0 <= k < |s| ==> s[k] <= x
    ensures AtMost(s, x) == |s|
  {
    if s != [] {
      AllAtMost(s[1..], x);
    }
  }

  lemma {:induction false} NoneBelow(s: seq<nat>, x: nat)
    requires forall k :: 0 <= k < |s| ==> s[k] >= x
    ensures Below(s, x) == 0
  {
    if s != [] {
      NoneBelow(s[1..], x);
    }
  }

  lemma {:induction false} CountsBound(s: seq<nat>, x: nat)
    ensures AtMost(s, x) <= |s| && Below(s, x) <= |s|
  {
    if s != [] {
      CountsBound(s[1..], x);
    }
  }

  lemma Parts(s: seq<nat>, k: nat)
    requires k <= |s|
    ensures s == s[..k] + s[k..]
  {
  }

  /** In ascending order the k-th has k before it, and k + 1 no larger. */
  lemma RankOf(s: seq<nat>, k: nat)
    requires Ascending(s) && k < |s|
    ensures AtMost(s, s[k]) >= k + 1
  {
    Parts(s, k + 1);
    CountsJoin(s[..k + 1], s[k + 1..], s[k]);
    AllAtMost(s[..k + 1], s[k]);
  }

  lemma RankBelow(s: seq<nat>, k: nat)
    requires Ascending(s) && k < |s|
    ensures Below(s, s[k]) <= k
  {
    Parts(s, k);
    CountsJoin(s[..k], s[k..], s[k]);
    NoneBelow(s[k..], s[k]);
    CountsBound(s[..k], s[k]);
  }

  // ------------------------------------------------------------------ one estimate

  /** The peak an estimate rests on: the largest of those kept, and from the twentieth run on
      the least that 95 percent of them do not exceed. */
  predicate RestsOn(kept: seq<nat>, runs: nat, peak: nat) {
    && peak in kept
    && if runs < 20 then AtMost(kept, peak) == |kept|
       else 20 * AtMost(kept, peak) >= 19 * |kept| && 20 * Below(kept, peak) < 19 * |kept|
  }

  /** The newest fifty. */
  predicate NewestFifty(all: seq<nat>, kept: seq<nat>) {
    if |all| <= 50 then kept == all else kept == all[|all| - 50..]
  }

  lemma PaddedExactly(peak: nat)
    ensures QuarterMore(Padded(peak), peak)
  {
  }

  lemma SortedHas(s: seq<nat>, k: nat)
    requires k < |s|
    ensures Sorted(s)[k] in s && Ascending(Sorted(s))
  {
    SortedIsSorted(s);
    assert Sorted(s)[k] in multiset(Sorted(s));
  }

  lemma SortedRests(kept: seq<nat>, runs: nat, k: nat)
    requires kept != [] && k == if runs < 20 then |kept| - 1 else Percentile(|kept|)
    ensures RestsOn(kept, runs, Sorted(kept)[k])
  {
    SortedHas(kept, k);
    RankOf(Sorted(kept), k);
    RankBelow(Sorted(kept), k);
    SortedCounts(kept, Sorted(kept)[k]);
    CountsBound(kept, Sorted(kept)[k]);
  }

  lemma EstimateExactly(prior: nat, kept: seq<nat>, runs: nat) returns (peak: nat)
    requires 0 < |kept| <= 50 && runs > 0
    ensures RestsOn(kept, runs, peak)
    ensures Estimate(prior, kept, runs) == Max(524288, Padded(peak))
  {
    var k := if runs < 20 then |kept| - 1 else Percentile(|kept|);
    SortedRests(kept, runs, k);
    peak := Sorted(kept)[k];
    assert LastOf(kept) == kept;
  }

  /** What is on record after a run. An incomplete run can only raise the estimate; a complete
      one joins the newest fifty peaks and sets it to five quarters of what they rest on, of
      this run's own peak, half a GiB, or nine tenths of the former estimate. */
  lemma RecordedExactly(row: Row, run: Run) returns (peak: nat, target: nat, own: nat, least: nat)
    ensures QuarterMore(own, run.peak) && QuarterMore(target, peak)
    ensures var former := if row.estimate.Some? then row.estimate.value else 1048576;
            var after := Record(row, run);
      && TenthLess(least, former)
      && (!run.complete ==> after == row.(estimate := Some(Max(former, own))))
      && (run.complete ==>
            && NewestFifty(row.peaks + [run.peak], after.peaks)
            && after.runs == (if row.runs < 1000000 then row.runs + 1 else 1000000)
            && RestsOn(after.peaks, after.runs, peak)
            && after.estimate == Some(Max(Max(Max(524288, target), own), least)))
  {
    var former := Current(row);
    own, least := Padded(run.peak), Lowered(former);
    PaddedExactly(run.peak);
    peak := 0;
    if run.complete {
      var after := Record(row, run);
      assert after.peaks == LastOf(row.peaks + [run.peak]);
      peak := EstimateExactly(former, after.peaks, after.runs);
    }
    target := Padded(peak);
    PaddedExactly(peak);
  }
}
