/** What a reservation call comes to, in figures (Scheduler.reservation in libexec/scheduler.py). */
module Amounts {
  import opened Common
  import opened Jobs
  import opened Reservation

  /** 5/4 of a peak, rounded down. */
  predicate Padded(pad: int, peak: int) { 4 * pad <= 5 * peak <= 4 * pad + 3 }

  /** The sample measures every process of a job whose size and owner allow for automatic sizing. */
  predicate Usable(a: Allowance, r: Reading) {
    && a.elastic && (!a.orphaned || a.recoveryActive)
    && |a.footprint| > 0 && !r.fault && forall p :: p in a.footprint ==> p in r.footprints
  }

  predicate Timely(r: Reading) { r.stamp <= r.monotonic <= r.stamp + 2.0 }

  /** What is held on entry: the request too where it may not be undercut. */
  function Held(a: Allowance, r: Reading): int {
    var reserve := if a.reservationKb.Some? then a.reservationKb.value else a.memoryKb;
    if !r.adaptive || !a.elastic || (a.orphaned && !a.recoveryActive) then Max(a.memoryKb, reserve) else reserve
  }

  /** More than five seconds from the newest point, or no point at all. */
  predicate Interrupts(window: seq<Point>, stamp: real) {
    |window| == 0 ||
    var newest := window[|window| - 1].stamp;
    stamp > newest + 5.0 || stamp < newest - 5.0
  }

  /** The chain that this observation continues began more than a minute before it. */
  predicate Spans(a: Allowance, r: Reading) {
    !Interrupts(a.window, r.stamp) && a.windowSince.Some? && r.stamp > a.windowSince.value + 60.0
  }

  /** A peak was retired before, and automatic sizing goes on from there. */
  predicate Carries(a: Allowance, r: Reading) {
    r.adaptive && a.elastic && a.admissionPeakKb.Some? && a.admissionPeakKb.value >= 0
  }

  /** The least peak that is not below the retired one, nor what is measured, nor 4/5 of what is held. */
  predicate CarriedPeak(a: Allowance, r: Reading, peak: int) {
    && peak >= a.admissionPeakKb.GetOr(0) && peak >= r.measured && 5 * peak >= 4 * Held(a, r)
    && (peak == a.admissionPeakKb.GetOr(0) || peak == r.measured || 5 * (peak - 1) < 4 * Held(a, r))
  }

  /** The peak that rules while no chain closes. */
  predicate Rules(a: Allowance, r: Reading, peak: int) {
    if Carries(a, r) then CarriedPeak(a, r, peak)
    else peak >= r.measured && peak >= a.observedPeakKb && (peak == r.measured || peak == a.observedPeakKb)
  }

  predicate Highest(points: seq<Point>, peak: int) {
    (forall p :: p in points ==> p.kb <= peak) && exists p :: p in points && p.kb == peak
  }

  /** The last of the points that are entered, at most 128 and at most a minute old. */
  predicate Recent(entered: seq<Point>, stamp: real, kept: seq<Point>, k: nat) {
    && k <= |entered| && kept == entered[k..]
    && forall i :: 0 <= i < |entered| ==>
         (i >= k <==> entered[i].stamp >= stamp - 60.0 && |entered| - i <= 128)
  }

  /** The window with one observation entered: begun anew with the ruling peak, continued, or
      its newest point raised. */
  predicate Enters(window: seq<Point>, r: Reading, ruling: int, entered: seq<Point>) {
    if Interrupts(window, r.stamp) then entered == [Point(r.stamp, ruling)]
    else
      var n := |window| - 1;
      if r.stamp > window[n].stamp then entered == window + [Point(r.stamp, r.measured)]
      else entered == window[..n] + [Point(window[n].stamp, Max(window[n].kb, r.measured))]
  }

  lemma CarryIsLeast(reserve: int)
    ensures 5 * (CarryBack(reserve) - 1) < 4 * reserve <= 5 * CarryBack(reserve)
  {
  }

  lemma FifthPads(peak: int)
    ensures Padded(Fifth(peak), peak)
  {
  }

  lemma UsableIsComplete(a: Allowance, r: Reading)
    ensures Usable(a, r) <==> Complete(a, r)
    ensures Held(a, r) == Floored(a, r) && (Timely(r) <==> Fresh(r))
  {
    assert |a.footprint| > 0 <==> a.footprint != map[];
  }

  lemma RulingRules(a: Allowance, r: Reading)
    requires Usable(a, r)
    ensures Rules(a, r, RulingPeak(a, r))
    ensures Closes(a, r) <==> r.adaptive && Timely(r) && Spans(a, r)
  {
    UsableIsComplete(a, r);
    CarryIsLeast(Held(a, r));
  }

  /** The amount of every call. An unusable sample retains what is held; one that has lapsed
      lowers nothing; any other settles on 5/4 of the ruling peak, or of the window's highest
      point once the chain spans more than a minute, above half a GiB after the startup burst
      of thirty seconds and above what is held before. */
  lemma AmountExactly(a: Allowance, r: Reading) returns (peak: int, pad: int)
    ensures Padded(pad, peak)
    ensures !Usable(a, r) ==> Amount(a, r) == Max(Held(a, r), r.measured)
    ensures Usable(a, r) && r.adaptive && !Timely(r) ==> peak == r.measured && Amount(a, r) == Max(Held(a, r), pad)
    ensures Usable(a, r) && (r.adaptive ==> Timely(r)) ==>
      && (if r.adaptive && Spans(a, r) then Highest(WindowAfter(a, r), peak) else Rules(a, r, peak))
      && var floor := if a.started.Some? && r.wall >= a.started.value + 30.0 then 524288 else Held(a, r);
         Amount(a, r) == Max(Max(floor, pad), r.measured)
  {
    UsableIsComplete(a, r);
    peak := r.measured;
    if Usable(a, r) && (r.adaptive ==> Timely(r)) {
      RulingRules(a, r);
      peak := SettledPeak(a, r);
      if Closes(a, r) {
        EnteredStaysInWindow(a.window, r.stamp, r.measured, RulingPeak(a, r));
      }
    }
    pad := Fifth(peak);
    FifthPads(peak);
  }

  /** The window of every call: an accepted observation enters and pushes out what is too old or
      too much; without adaptive sizing, or after a sample that is neither usable nor busy, it
      is empty; otherwise it stays. */
  lemma WindowExactly(a: Allowance, r: Reading) returns (ruling: int, entered: seq<Point>, k: nat)
    requires Ascending(a.window)
    ensures Usable(a, r) && r.adaptive && Timely(r) ==>
      && Rules(a, r, ruling) && Enters(a.window, r, ruling, entered) && Recent(entered, r.stamp, WindowAfter(a, r), k)
    ensures Usable(a, r) && r.adaptive && !Timely(r) ==> WindowAfter(a, r) == a.window
    ensures Usable(a, r) && !r.adaptive ==> WindowAfter(a, r) == []
    ensures !Usable(a, r) ==> WindowAfter(a, r) == if r.busy then a.window else []
  {
    UsableIsComplete(a, r);
    ruling, k := RulingPeak(a, r), 0;
    entered := Entered(a.window, r.stamp, r.measured, ruling);
    if Usable(a, r) && r.adaptive && Timely(r) {
      RulingRules(a, r);
      k := TrimExactly(entered, r.stamp);
    }
  }

  lemma TrimExactly(points: seq<Point>, stamp: real) returns (k: nat)
    requires Ascending(points)
    ensures Recent(points, stamp, Trim(points, stamp), k)
  {
    k := SinceExactly(points, stamp - 60.0);
    if |points| - k > 128 {
      k := |points| - 128;
    }
  }

  /** The points from k on are those no older than `from`. */
  predicate Parted(points: seq<Point>, from: real, k: nat) {
    k <= |points| && forall i :: 0 <= i < |points| ==> (i >= k <==> points[i].stamp >= from)
  }

  lemma PartedFront(points: seq<Point>, from: real, j: nat)
    requires points != [] && points[0].stamp < from && Parted(points[1..], from, j)
    ensures Parted(points, from, j + 1) && points[1..][j..] == points[j + 1..]
  {
    forall i | 0 <= i < |points| ensures i >= j + 1 <==> points[i].stamp >= from {
      if i > 0 {
        assert points[i] == points[1..][i - 1];
      }
    }
  }

  lemma PartedAll(points: seq<Point>, from: real)
    requires Ascending(points) && (points == [] || points[0].stamp >= from)
    ensures Parted(points, from, 0) && Since(points, from) == points
  {
    SinceAll(points, from);
  }

  lemma AscendingRest(points: seq<Point>)
    requires Ascending(points) && points != []
    ensures Ascending(points[1..])
  {
  }

  lemma {:induction false} SinceExactly(points: seq<Point>, from: real) returns (k: nat)
    requires Ascending(points)
    ensures Parted(points, from, k) && Since(points, from) == points[k..]
  {
    k := 0;
    if points == [] || points[0].stamp >= from {
      PartedAll(points, from);
    } else {
      AscendingRest(points);
      var j := SinceExactly(points[1..], from);
      PartedFront(points, from, j);
      k := j + 1;
    }
  }

  /** Everything else a call leaves behind. */
  lemma RecordExactly(a: Allowance, r: Reading)
    ensures var next := Record(a, r);
      && (Usable(a, r) && r.adaptive && Timely(r) && Spans(a, r) ==>
            next.admissionPeakKb.Some? && Highest(WindowAfter(a, r), next.admissionPeakKb.value))
      && (!(Usable(a, r) && r.adaptive && Timely(r) && Spans(a, r)) && Carries(a, r) ==>
            next.admissionPeakKb.Some? && CarriedPeak(a, r, next.admissionPeakKb.value))
      && (!(Usable(a, r) && r.adaptive && Timely(r) && Spans(a, r)) && !Carries(a, r) ==>
            next.admissionPeakKb == a.admissionPeakKb)
      && next.observedPeakKb == (if Usable(a, r) then Max(a.observedPeakKb, r.measured) else a.observedPeakKb)
      && next.windowSince == (if Usable(a, r) && r.adaptive && Timely(r) && Interrupts(a.window, r.stamp)
                              then Some(r.stamp) else a.windowSince)
      && next.source == (if !Usable(a, r) then 3 else if r.adaptive && Timely(r) then 2 else 1)
      && next == a.(admissionPeakKb := next.admissionPeakKb, observedPeakKb := next.observedPeakKb,
                    window := WindowAfter(a, r), windowSince := next.windowSince, source := next.source)
  {
    UsableIsComplete(a, r);
    CarryIsLeast(Held(a, r));
    if Closes(a, r) {
      EnteredStaysInWindow(a.window, r.stamp, r.measured, RulingPeak(a, r));
    }
  }
}
