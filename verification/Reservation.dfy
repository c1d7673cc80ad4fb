/** The sliding peak window behind a running job's memory allowance
    (Scheduler.reservation in libexec/scheduler.py). */
module Reservation {
  import opened Common
  import opened Jobs

  /** What a reservation call sees: one sample, the sum it measured, the mode, and both clocks. */
  datatype Reading = Reading(
    footprints: map<Pid, int>,
    fault: bool,
    busy: bool,
    stamp: real,
    measured: int,
    adaptive: bool,
    monotonic: real,
    wall: real)

  /** 5/4 of a peak, truncated to whole KiB. */
  function Fifth(peak: int): int { peak * 5 / 4 }

  /** The carried-forward peak whose 5/4 is at least the allowance `reserve`. */
  function CarryBack(reserve: int): int { (reserve * 4 + 4) / 5 }

  predicate Certain(a: Allowance) { a.elastic && !a.Uncertain() }

  predicate MeasuresAll(footprint: map<Pid, Start>, r: Reading) {
    footprint != map[] && !r.fault && forall p :: p in footprint ==> p in r.footprints
  }

  /** The reading measures every member of a job that automatic allowances apply to. */
  predicate Complete(a: Allowance, r: Reading) {
    Certain(a) && MeasuresAll(a.footprint, r)
  }

  predicate Fresh(r: Reading) { 0.0 <= r.monotonic - r.stamp <= 2.0 }

  /** A complete and fresh adaptive observation: the only kind that advances the window. */
  predicate Accepts(a: Allowance, r: Reading) { Complete(a, r) && r.adaptive && Fresh(r) }

  /** A reading that empties the window. */
  predicate Clears(a: Allowance, r: Reading) { if Complete(a, r) then !r.adaptive else !r.busy }

  /** Points no older than `from`, in order. */
  function Since(points: seq<Point>, from: real): seq<Point> {
    if points == [] then []
    else (if points[0].stamp >= from then [points[0]] else []) + Since(points[1..], from)
  }

  function LastN(points: seq<Point>, n: nat): seq<Point> {
    if |points| <= n then points else points[|points| - n..]
  }

  /** The window keeps 60 seconds and at most 128 points. */
  function Trim(points: seq<Point>, stamp: real): seq<Point> { LastN(Since(points, stamp - 60.0), 128) }

  predicate Restarts(window: seq<Point>, stamp: real) {
    window == [] || stamp - window[|window| - 1].stamp > 5.0 || window[|window| - 1].stamp - stamp > 5.0
  }

  /** One accepted observation enters the window: it restarts it, extends it, or, when it is
      slightly older than the newest point, raises that point. */
  function Entered(window: seq<Point>, stamp: real, measured: int, peak: int): seq<Point> {
    if Restarts(window, stamp) then [Point(stamp, peak)]
    else
      var n := |window| - 1;
      if stamp > window[n].stamp then window + [Point(stamp, measured)]
      else window[..n] + [Point(window[n].stamp, Max(window[n].kb, measured))]
  }

  function PeakOf(points: seq<Point>): (kb: int)
    requires points != []
    ensures forall p :: p in points ==> p.kb <= kb
    ensures exists p :: p in points && p.kb == kb
  {
    if |points| == 1 then points[0].kb
    else
      var rest := PeakOf(points[1..]);
      assert points == [points[0]] + points[1..];
      Max(points[0].kb, rest)
  }

  /** What is held on entry: requests that must not shrink are raised to the full request. */
  function Floored(a: Allowance, r: Reading): int {
    if !r.adaptive || !Certain(a) then Max(a.memoryKb, a.Reserve()) else a.Reserve()
  }

  /** The retained peak a retired job carries into this call; None while its lifetime peak still rules. */
  function Carried(a: Allowance, r: Reading): Option<int> {
    if r.adaptive && a.elastic && a.admissionPeakKb.Some? && a.admissionPeakKb.value >= 0
    then Some(Max(Max(a.admissionPeakKb.value, r.measured), CarryBack(Floored(a, r))))
    else None
  }

  /** The peak an allowance must cover before any window closes. */
  function RulingPeak(a: Allowance, r: Reading): int {
    match Carried(a, r)
    case Some(p) => Max(r.measured, p)
    case None => Max(r.measured, a.observedPeakKb)
  }

  function WindowAfter(a: Allowance, r: Reading): seq<Point> {
    if Accepts(a, r) then Trim(Entered(a.window, r.stamp, r.measured, RulingPeak(a, r)), r.stamp)
    else if Clears(a, r) then []
    else a.window
  }

  function SinceAfter(a: Allowance, r: Reading): Option<real> {
    if Accepts(a, r) && Restarts(a.window, r.stamp) then Some(r.stamp) else a.windowSince
  }

  /** The call closes a chain of observations that spans more than 60 seconds. */
  predicate Closes(a: Allowance, r: Reading) {
    Accepts(a, r) && r.stamp - SinceAfter(a, r).GetOr(r.stamp) > 60.0
  }

  lemma {:induction false} SinceKeepsNewest(points: seq<Point>, from: real)
    requires points != [] && points[|points| - 1].stamp >= from
    ensures Since(points, from) != [] && Since(points, from)[|Since(points, from)| - 1] == points[|points| - 1]
  {
    if |points| > 1 {
      SinceKeepsNewest(points[1..], from);
    }
  }

  lemma EnteredStaysInWindow(window: seq<Point>, stamp: real, measured: int, peak: int)
    ensures Trim(Entered(window, stamp, measured, peak), stamp) != []
  {
    SinceKeepsNewest(Entered(window, stamp, measured, peak), stamp - 60.0);
  }

  /** The peak a complete, fresh or strict call settles on. */
  function SettledPeak(a: Allowance, r: Reading): int {
    if Closes(a, r) then
      EnteredStaysInWindow(a.window, r.stamp, r.measured, RulingPeak(a, r));
      PeakOf(WindowAfter(a, r))
    else RulingPeak(a, r)
  }

  /** The allowance a call returns. */
  function Amount(a: Allowance, r: Reading): int {
    if !Complete(a, r) then Max(Floored(a, r), r.measured)
    else if r.adaptive && !Fresh(r) then Max(a.Reserve(), Fifth(r.measured))
    else
      var settled := Fifth(SettledPeak(a, r));
      Max(r.measured, if 30.0 <= r.wall - a.started.GetOr(r.wall) then Max(GIB / 2, settled)
                      else Max(Floored(a, r), settled))
  }

  /** The record a call leaves behind. */
  function Record(a: Allowance, r: Reading): Allowance {
    a.(admissionPeakKb := if Closes(a, r) then Some(SettledPeak(a, r))
                          else if Carried(a, r).Some? then Carried(a, r)
                          else a.admissionPeakKb,
       observedPeakKb := if Complete(a, r) then Max(r.measured, a.observedPeakKb) else a.observedPeakKb,
       window := WindowAfter(a, r),
       windowSince := SinceAfter(a, r),
       source := if !Complete(a, r) then 3 else if Accepts(a, r) then 2 else 1)
  }

  /** A job record as the scheduler updates it in place. */
  class JobRecord {
    const memoryKb: int
    const elastic: bool
    const started: Option<real>
    var reservationKb: Option<int>
    var orphaned: bool
    var recoveryActive: bool
    var footprint: map<Pid, Start>
    var admissionPeakKb: Option<int>
    var observedPeakKb: int
    var window: seq<Point>
    var windowSince: Option<real>
    var source: int

    function View(): Allowance
      reads this
    {
      Allowance(memoryKb, reservationKb, elastic, orphaned, recoveryActive, footprint, admissionPeakKb,
                observedPeakKb, window, windowSince, started, source)
    }

    constructor (a: Allowance)
      ensures View() == a
    {
      memoryKb, elastic, started := a.memoryKb, a.elastic, a.started;
      reservationKb, orphaned, recoveryActive, footprint := a.reservationKb, a.orphaned, a.recoveryActive, a.footprint;
      admissionPeakKb, observedPeakKb := a.admissionPeakKb, a.observedPeakKb;
      window, windowSince, source := a.window, a.windowSince, a.source;
    }

    method Trimmed(points: seq<Point>, stamp: real) returns (kept: seq<Point>)
      ensures kept == Trim(points, stamp)
    {
      kept := [];
      for i := 0 to |points|
        invariant kept + Since(points[i..], stamp - 60.0) == Since(points, stamp - 60.0)
      {
        if points[i].stamp >= stamp - 60.0 {
          kept := kept + [points[i]];
        }
      }
      kept := LastN(kept, 128);
    }

    /** An accepted observation slides the window; once it spans more than 60 seconds its
        maximum replaces the ruling peak. */
    method Slide(r: Reading, ruling: int) returns (peak: int)
      modifies `window, `windowSince, `admissionPeakKb
      ensures window == Trim(Entered(old(window), r.stamp, r.measured, ruling), r.stamp)
      ensures windowSince == if Restarts(old(window), r.stamp) then Some(r.stamp) else old(windowSince)
      ensures var closed := r.stamp - windowSince.GetOr(r.stamp) > 60.0;
        && (closed ==> window != [])
        && peak == (if closed then PeakOf(window) else ruling)
        && admissionPeakKb == if closed then Some(peak) else old(admissionPeakKb)
    {
      peak := ruling;
      var history := window;
      if history == [] || StampGap(r.stamp, history[|history| - 1].stamp) > 5.0 {
        history := [Point(r.stamp, peak)];
        windowSince := Some(r.stamp);
      } else if r.stamp > history[|history| - 1].stamp {
        history := history + [Point(r.stamp, r.measured)];
      } else {
        var newest := history[|history| - 1];
        history := history[..|history| - 1] + [Point(newest.stamp, Max(newest.kb, r.measured))];
      }
      EnteredStaysInWindow(old(window), r.stamp, r.measured, ruling);
      history := Trimmed(history, r.stamp);
      window := history;
      if r.stamp - windowSince.GetOr(r.stamp) > 60.0 {
        peak := PeakOf(history);
        admissionPeakKb := Some(peak);
      }
    }

    /** Every member is measured: the observed peak rules, or what the window makes of it. */
    method Settle(r: Reading, reserve: int, admissionPeak: Option<int>, ghost was: Allowance) returns (kb: int)
      requires View() == was.(admissionPeakKb := if Carried(was, r).Some? then Carried(was, r) else was.admissionPeakKb)
      requires Complete(was, r) && reserve == Floored(was, r) && admissionPeak == Carried(was, r)
      modifies this
      ensures View() == Record(was, r) && kb == Amount(was, r)
    {
      var peak := Max(r.measured, observedPeakKb);
      observedPeakKb := peak;
      if admissionPeak.Some? {
        peak := Max(r.measured, admissionPeak.value);
      }
      assert peak == RulingPeak(was, r);
      if r.adaptive && Fresh(r) {
        peak := Slide(r, peak);
        source := 2;
      } else {
        source := 1;
        if r.adaptive {
          return Max(reservationKb.GetOr(memoryKb), Fifth(r.measured));
        }
        window := [];
      }
      assert peak == SettledPeak(was, r);
      var settled := if 30.0 <= r.wall - started.GetOr(r.wall)
                     then Max(GIB / 2, Fifth(peak)) else Max(reserve, Fifth(peak));
      kb := Max(settled, r.measured);
    }

    method Reservation(r: Reading) returns (kb: int)
      modifies this
      ensures View() == Record(old(View()), r) && kb == Amount(old(View()), r)
    {
      ghost var was := View();
      var reserve := reservationKb.GetOr(memoryKb);
      var uncertain := orphaned && !recoveryActive;
      if !r.adaptive || !elastic || uncertain {
        reserve := Max(memoryKb, reserve);
      }
      var admissionPeak := None;
      if r.adaptive && elastic && admissionPeakKb.Some? && admissionPeakKb.value >= 0 {
        admissionPeak := Some(Max(Max(admissionPeakKb.value, r.measured), CarryBack(reserve)));
        admissionPeakKb := admissionPeak;
      }
      if elastic && !uncertain && MeasuresAll(footprint, r) {
        kb := Settle(r, reserve, admissionPeak, was);
      } else {
        if !r.busy {
          window := [];
        }
        source := 3;
        kb := Max(reserve, r.measured);
      }
    }

    static function StampGap(a: real, b: real): real { if a >= b then a - b else b - a }
  }

  // ------------------------------------------------------------ one call

  /** Truncating 5/4 is undone exactly by the carry, and the carry never loses a KiB
      while gaining at most one. */
  lemma CarryRoundTrip(peak: nat, reserve: nat)
    ensures CarryBack(Fifth(peak)) == peak
    ensures reserve <= Fifth(CarryBack(reserve)) <= reserve + 1
  {
  }

  /** Amounts are never negative. */
  predicate Sane(a: Allowance, r: Reading) {
    a.memoryKb > 0 && a.Reserve() >= 0 && a.observedPeakKb >= 0 && r.measured >= 0
  }

  /** A job whose peak was retired at least once. */
  predicate Retired(a: Allowance) { a.admissionPeakKb.Some? && a.admissionPeakKb.value >= 0 }

  /** Without a closed chain an adaptive allowance is lowered only while its lifetime peak
      still rules, only by a complete fresh observation after the startup burst, and never
      below 5/4 of that peak. */
  lemma ShrinkNeedsClosedChain(a: Allowance, r: Reading)
    requires Sane(a, r) && r.adaptive && Certain(a) && !Closes(a, r)
    ensures Amount(a, r) < a.Reserve() ==>
      && !Retired(a) && Accepts(a, r) && 30.0 <= r.wall - a.started.GetOr(r.wall)
      && 4 * Amount(a, r) + 3 >= 5 * Max(r.measured, a.observedPeakKb)
  {
    CarryRoundTrip(0, a.Reserve());
  }

  /** A closing call covers 5/4 of every point the window still holds, and of what it measured. */
  lemma ClosingCoversWindow(a: Allowance, r: Reading)
    requires Closes(a, r)
    ensures Amount(a, r) >= r.measured
    ensures forall p :: p in WindowAfter(a, r) ==> 4 * Amount(a, r) + 3 >= 5 * p.kb
  {
    EnteredStaysInWindow(a.window, r.stamp, r.measured, RulingPeak(a, r));
  }

  /** Fixed-size requests and uncertain orphans keep at least what they hold and requested. */
  lemma FixedAndUncertainNeverShrink(a: Allowance, r: Reading)
    requires !Certain(a)
    ensures Amount(a, r) >= Max(a.memoryKb, a.Reserve())
  {
  }

  lemma {:induction false} SinceMembers(points: seq<Point>, from: real)
    ensures forall p :: p in Since(points, from) ==> p in points && p.stamp >= from
  {
    if points != [] {
      SinceMembers(points[1..], from);
      assert points == [points[0]] + points[1..];
    }
  }

  lemma {:induction false} SinceAll(points: seq<Point>, from: real)
    requires forall p :: p in points ==> p.stamp >= from
    ensures Since(points, from) == points
  {
    if points != [] {
      assert points == [points[0]] + points[1..];
      SinceAll(points[1..], from);
    }
  }

  lemma TrimIdempotent(points: seq<Point>, stamp: real)
    ensures Trim(Trim(points, stamp), stamp) == Trim(points, stamp)
  {
    SinceMembers(points, stamp - 60.0);
    SinceAll(Trim(points, stamp), stamp - 60.0);
  }

  /** Repeating an observation with the same clocks leaves the window as it is. */
  lemma EnterTwice(window: seq<Point>, stamp: real, measured: int, peak: int, again: int)
    requires peak >= measured
    ensures var once := Trim(Entered(window, stamp, measured, peak), stamp);
      && !Restarts(once, stamp)
      && Trim(Entered(once, stamp, measured, again), stamp) == once
  {
    var entered := Entered(window, stamp, measured, peak);
    var once := Trim(entered, stamp);
    SinceKeepsNewest(entered, stamp - 60.0);
    assert once[|once| - 1] == entered[|entered| - 1];
    assert Entered(once, stamp, measured, again) == once;
    TrimIdempotent(entered, stamp);
  }

  /** The newest point holds the observation just made, so no settled peak is below it. */
  lemma SettledCoversMeasured(a: Allowance, r: Reading)
    requires Accepts(a, r)
    ensures SettledPeak(a, r) >= r.measured
  {
    var entered := Entered(a.window, r.stamp, r.measured, RulingPeak(a, r));
    SinceKeepsNewest(entered, r.stamp - 60.0);
    assert WindowAfter(a, r)[|WindowAfter(a, r)| - 1] == entered[|entered| - 1];
  }

  /** The record the next call on the same sample starts from. */
  function Revisited(a: Allowance, r: Reading): Allowance {
    Record(a, r).(reservationKb := Some(Amount(a, r)))
  }

  lemma RevisitKeepsWindow(a: Allowance, r: Reading)
    requires r.measured >= 0
    ensures WindowAfter(Revisited(a, r), r) == WindowAfter(a, r)
    ensures SinceAfter(Revisited(a, r), r) == SinceAfter(a, r)
    ensures Closes(Revisited(a, r), r) == Closes(a, r)
  {
    var again := Revisited(a, r);
    assert again.footprint == a.footprint && again.elastic == a.elastic && again.Uncertain() == a.Uncertain();
    if Accepts(a, r) {
      EnterTwice(a.window, r.stamp, r.measured, RulingPeak(a, r), RulingPeak(again, r));
    }
  }

  lemma RevisitKeepsRulingPeak(a: Allowance, r: Reading)
    requires Sane(a, r) && Complete(a, r) && !Closes(a, r) && (r.adaptive ==> Fresh(r))
    ensures var again := Revisited(a, r);
      || RulingPeak(again, r) == RulingPeak(a, r)
      || (Amount(a, r) == Amount(again, r) == GIB / 2 && RulingPeak(again, r) == CarryBack(GIB / 2))
  {
    var again := Revisited(a, r);
    RevisitKeepsWindow(a, r);
    var peak := RulingPeak(a, r);
    CarryRoundTrip(peak, a.Reserve());
  }

  /** Revisiting one cached sample cannot ratchet an allowance: the second call returns
      what the first did, so every waiter's admission pass sees the same reservations. */
  lemma AllowanceIsStable(a: Allowance, r: Reading)
    requires Sane(a, r)
    ensures Amount(Revisited(a, r), r) == Amount(a, r)
    ensures WindowAfter(Revisited(a, r), r) == WindowAfter(a, r)
  {
    var again := Revisited(a, r);
    RevisitKeepsWindow(a, r);
    assert Complete(again, r) == Complete(a, r) && again.Reserve() == Amount(a, r);
    if Complete(a, r) && (r.adaptive ==> Fresh(r)) {
      if Closes(a, r) {
        assert SettledPeak(again, r) == SettledPeak(a, r);
      } else {
        RevisitKeepsRulingPeak(a, r);
      }
    }
  }

  /** The same sample, looked at again with later clocks. */
  predicate Later(r: Reading, later: Reading) {
    && later == r.(monotonic := later.monotonic, wall := later.wall)
    && r.stamp <= r.monotonic <= later.monotonic && r.wall <= later.wall
  }

  /** The startup burst is over, and the lifetime peak or the window rules alone. */
  predicate Settled(a: Allowance, wall: real) { 30.0 <= wall - a.started.GetOr(wall) }

  /** The burst ends between the two looks, and the second still sees a usable observation. */
  predicate Ages(a: Allowance, r: Reading, later: Reading) {
    && Complete(a, r) && (r.adaptive ==> Fresh(later))
    && !Settled(a, r.wall) && Settled(a, later.wall)
  }

  lemma LaterKeepsWindow(a: Allowance, r: Reading, later: Reading)
    requires Sane(a, r) && Later(r, later)
    ensures WindowAfter(Revisited(a, r), later) == WindowAfter(a, r)
    ensures Accepts(a, r) && Fresh(later) ==>
      Closes(Revisited(a, r), later) == Closes(a, r) && SinceAfter(Revisited(a, r), later) == SinceAfter(a, r)
  {
    var again := Revisited(a, r);
    assert again.footprint == a.footprint && again.elastic == a.elastic && again.Uncertain() == a.Uncertain();
    if Accepts(a, r) {
      EnterTwice(a.window, r.stamp, r.measured, RulingPeak(a, r), RulingPeak(again, later));
    }
  }

  /** Without a usable observation the second look retains what the first returned. */
  lemma LapsedIsRetained(a: Allowance, r: Reading, later: Reading)
    requires Sane(a, r) && Later(r, later) && (Complete(a, r) ==> r.adaptive && !Fresh(later))
    ensures Amount(Revisited(a, r), later) == Amount(a, r)
  {
    if Complete(a, r) && Fresh(r) {
      if Closes(a, r) {
        SettledCoversMeasured(a, r);
      }
    }
  }

  lemma LaterKeepsPeak(a: Allowance, r: Reading, later: Reading)
    requires Sane(a, r) && Later(r, later) && Complete(a, r) && (r.adaptive ==> Fresh(later))
    requires !Closes(a, r)
    ensures var again := Revisited(a, r);
      || RulingPeak(again, later) == RulingPeak(a, r)
      || (Settled(a, r.wall) && Amount(a, r) == GIB / 2 && RulingPeak(again, later) == CarryBack(GIB / 2))
  {
    CarryRoundTrip(RulingPeak(a, r), a.Reserve());
    CarryRoundTrip(GIB / 2, GIB / 2);
  }

  lemma UsableIsStable(a: Allowance, r: Reading, later: Reading)
    requires Sane(a, r) && Later(r, later) && Complete(a, r) && (r.adaptive ==> Fresh(later))
    ensures !Ages(a, r, later) ==> Amount(Revisited(a, r), later) == Amount(a, r)
    ensures Ages(a, r, later) ==> GIB / 2 <= Amount(Revisited(a, r), later) <= Max(GIB / 2, Amount(a, r))
  {
    LaterKeepsWindow(a, r, later);
    if Closes(a, r) {
      assert SettledPeak(Revisited(a, r), later) == SettledPeak(a, r);
      SettledCoversMeasured(a, r);
    } else {
      LaterKeepsPeak(a, r, later);
    }
  }

  /** Each waiter of a pass looks at the same sample with clocks read anew. What one look leaves
      the next one returns, whether or not the sample has lapsed meanwhile, unless the burst
      ends in between; then the allowance can only fall, or be raised to half a GiB. */
  lemma AllowanceIsStableLater(a: Allowance, r: Reading, later: Reading)
    requires Sane(a, r) && Later(r, later)
    ensures !Ages(a, r, later) ==> Amount(Revisited(a, r), later) == Amount(a, r)
    ensures Ages(a, r, later) ==> GIB / 2 <= Amount(Revisited(a, r), later) <= Max(GIB / 2, Amount(a, r))
    ensures WindowAfter(Revisited(a, r), later) == WindowAfter(a, r)
  {
    LaterKeepsWindow(a, r, later);
    if Complete(a, r) && (r.adaptive ==> Fresh(later)) {
      UsableIsStable(a, r, later);
    } else {
      LapsedIsRetained(a, r, later);
    }
  }

  // ----------------------------------------------------------- whole histories

  /** One call in a job's life. Between calls anything but the window may have changed:
      refresh, other observers and the stored reservation all write the record. */
  datatype Call = Call(record: Allowance, reading: Reading)

  /** The part of the record that only reservation calls write. */
  datatype Track = Track(window: seq<Point>, since: Option<real>, retired: Option<int>)

  function Resume(t: Track, c: Call): Allowance {
    c.record.(window := t.window, windowSince := t.since, admissionPeakKb := t.retired)
  }

  /** The window state after a history of calls on a newly launched job. */
  function After(calls: seq<Call>): Track {
    if calls == [] then Track([], None, None) else Step(After(calls[..|calls| - 1]), calls[|calls| - 1])
  }

  function Step(t: Track, c: Call): Track {
    var left := Record(Resume(t, c), c.reading);
    Track(left.window, left.windowSince, left.admissionPeakKb)
  }

  lemma StepByKind(t: Track, c: Call)
    ensures var stamp := c.reading.stamp;
            var peak := RulingPeak(Resume(t, c), c.reading);
            var next := Step(t, c);
      if Accepted(c) then
        && peak >= c.reading.measured
        && next.window == Trim(Entered(t.window, stamp, c.reading.measured, peak), stamp)
        && next.since == if Restarts(t.window, stamp) then Some(stamp) else t.since
      else next.window == (if Cleared(c) then [] else t.window) && next.since == t.since
  {
    assert Accepts(Resume(t, c), c.reading) == Accepted(c);
    assert Clears(Resume(t, c), c.reading) == Clears(c.record, c.reading);
  }

  predicate Accepted(c: Call) { Accepts(c.record, c.reading) }

  predicate Cleared(c: Call) { !Accepted(c) && Clears(c.record, c.reading) }

  function Newest(points: seq<Point>): (stamp: real)
    requires points != []
    ensures forall p :: p in points ==> p.stamp <= stamp
    ensures exists p :: p in points && p.stamp == stamp
  {
    var last := points[|points| - 1].stamp;
    if |points| == 1 then last
    else
      assert points == points[..|points| - 1] + [points[|points| - 1]];
      MaxReal(Newest(points[..|points| - 1]), last)
  }

  function Extended(chain: seq<Point>, point: Point): (longer: seq<Point>)
    ensures longer != []
  {
    if chain == [] || point.stamp - Newest(chain) > 5.0 || Newest(chain) - point.stamp > 5.0 then [point]
    else chain + [point]
  }

  /** The unbroken chain a history ends with: every accepted observation since the last
      cleared window or stamp gap above five seconds, as it was measured. */
  function Chain(calls: seq<Call>): seq<Point> {
    if calls == [] then [] else
    var c := calls[|calls| - 1];
    var before := Chain(calls[..|calls| - 1]);
    if Accepted(c) then Extended(before, Point(c.reading.stamp, c.reading.measured))
    else if Cleared(c) then []
    else before
  }

  /** Independently of how it was collected: each observation lies within five seconds of
      the newest one before it. */
  predicate GapsAtMostFive(chain: seq<Point>) {
    forall k :: 0 < k < |chain| ==> -5.0 <= chain[k].stamp - Newest(chain[..k]) <= 5.0
  }

  lemma {:induction false} ExtendedIsUnbroken(chain: seq<Point>, point: Point)
    requires GapsAtMostFive(chain)
    ensures GapsAtMostFive(Extended(chain, point))
  {
    var longer := Extended(chain, point);
    forall k | 0 < k < |longer| ensures -5.0 <= longer[k].stamp - Newest(longer[..k]) <= 5.0 {
      assert longer[..k] == chain[..k];
      if k == |chain| { assert chain[..k] == chain; }
    }
  }

  lemma {:induction false} ChainIsUnbroken(calls: seq<Call>)
    ensures GapsAtMostFive(Chain(calls))
  {
    if calls != [] {
      var before := calls[..|calls| - 1];
      var c := calls[|calls| - 1];
      ChainIsUnbroken(before);
      ExtendedIsUnbroken(Chain(before), Point(c.reading.stamp, c.reading.measured));
    }
  }

  predicate Ascending(window: seq<Point>) {
    forall i, j :: 0 <= i < j < |window| ==> window[i].stamp < window[j].stamp
  }

  /** A kept point at or after p that is at least as high stands for p. */
  predicate Stands(window: seq<Point>, p: Point) {
    exists w :: w in window && w.stamp >= p.stamp && w.kb >= p.kb
  }

  /** A point is stood for, is out of date, or has been displaced by 128 newer points. */
  predicate Kept(window: seq<Point>, newest: real, p: Point) {
    Stands(window, p) || p.stamp < newest - 60.0 || (|window| == 128 && p.stamp < window[0].stamp)
  }

  /** What the window remembers of a chain: its newest stamp, its beginning, and every
      observation of the last 60 seconds unless 128 newer points have displaced it. */
  predicate Remembers(t: Track, chain: seq<Point>) {
    && (t.window == [] <==> chain == [])
    && Ascending(t.window)
    && |t.window| <= 128
    && (chain != [] ==>
         && t.since == Some(chain[0].stamp)
         && t.window[|t.window| - 1].stamp == Newest(chain)
         && forall p :: p in chain ==> Kept(t.window, Newest(chain), p))
  }

  lemma {:induction false} SinceIsSuffix(points: seq<Point>, from: real) returns (k: nat)
    requires Ascending(points)
    ensures k <= |points| && Since(points, from) == points[k..]
    ensures forall i :: 0 <= i < k ==> points[i].stamp < from
  {
    k := 0;
    if points != [] {
      if points[0].stamp >= from {
        SinceAll(points, from);
      } else {
        var j := SinceIsSuffix(points[1..], from);
        k := j + 1;
        forall i | 0 <= i < k ensures points[i].stamp < from {
          if i > 0 { assert points[1..][i - 1].stamp < from; }
        }
      }
    }
  }

  /** Trimming drops a prefix: points older than 60 seconds, or, when 128 remain, any. */
  lemma TrimIsSuffix(points: seq<Point>, stamp: real) returns (k: nat)
    requires Ascending(points)
    ensures k <= |points| && Trim(points, stamp) == points[k..] && |points[k..]| <= 128
    ensures |points[k..]| < 128 ==> forall i :: 0 <= i < k ==> points[i].stamp < stamp - 60.0
  {
    k := SinceIsSuffix(points, stamp - 60.0);
    if |points[k..]| > 128 {
      k := |points| - 128;
    }
  }

  lemma NewestOfExtended(chain: seq<Point>, point: Point)
    requires chain != []
    ensures Newest(chain + [point]) == MaxReal(Newest(chain), point.stamp)
  {
    assert (chain + [point])[..|chain|] == chain;
  }

  /** Before trimming, everything the window stood for still stands, and so does the new point. */
  lemma EnteredStands(window: seq<Point>, point: Point, peak: int)
    requires window != [] && Ascending(window) && !Restarts(window, point.stamp)
    ensures var entered := Entered(window, point.stamp, point.kb, peak);
      && Stands(entered, point)
      && forall p :: Stands(window, p) ==> Stands(entered, p)
  {
    var entered := Entered(window, point.stamp, point.kb, peak);
    var newest := entered[|entered| - 1];
    assert newest in entered;
    forall p | Stands(window, p) ensures Stands(entered, p) {
      var w :| w in window && w.stamp >= p.stamp && w.kb >= p.kb;
      var i :| 0 <= i < |window| && window[i] == w;
      if i < |window| - 1 || point.stamp > window[i].stamp { assert entered[i] == w; }
    }
  }

  /** Trimming loses only points that are out of date or displaced. */
  lemma TrimKeeps(points: seq<Point>, stamp: real, newest: real, p: Point)
    requires Ascending(points) && stamp <= newest
    requires Stands(points, p) || p.stamp < newest - 60.0 || (|points| >= 128 && p.stamp < points[0].stamp)
    ensures Kept(Trim(points, stamp), newest, p)
  {
    var k := TrimIsSuffix(points, stamp);
    if Stands(points, p) {
      var w :| w in points && w.stamp >= p.stamp && w.kb >= p.kb;
      var i :| 0 <= i < |points| && points[i] == w;
      if i >= k { assert points[k..][i - k] == w; }
    }
  }

  /** A point that extends the window is itself kept and displaces no kept point. */
  lemma ExtendingKeeps(window: seq<Point>, point: Point, peak: int, p: Point)
    requires window != [] && Ascending(window) && !Restarts(window, point.stamp)
    requires p == point || Kept(window, window[|window| - 1].stamp, p)
    ensures Kept(Trim(Entered(window, point.stamp, point.kb, peak), point.stamp),
                 MaxReal(window[|window| - 1].stamp, point.stamp), p)
  {
    EnteredStands(window, point, peak);
    TrimKeeps(Entered(window, point.stamp, point.kb, peak), point.stamp,
              MaxReal(window[|window| - 1].stamp, point.stamp), p);
  }

  lemma ExtendingKeepsOrder(window: seq<Point>, point: Point, peak: int)
    requires window != [] && Ascending(window) && !Restarts(window, point.stamp)
    ensures var next := Trim(Entered(window, point.stamp, point.kb, peak), point.stamp);
      && next != [] && Ascending(next) && |next| <= 128
      && next[|next| - 1].stamp == MaxReal(window[|window| - 1].stamp, point.stamp)
  {
    var entered := Entered(window, point.stamp, point.kb, peak);
    var k := TrimIsSuffix(entered, point.stamp);
    SinceKeepsNewest(entered, point.stamp - 60.0);
  }

  /** Entering a point that does not restart the window keeps standing for the whole chain. */
  lemma ExtendingRemembers(t: Track, chain: seq<Point>, point: Point, peak: int)
    requires Remembers(t, chain) && !Restarts(t.window, point.stamp)
    ensures Remembers(t.(window := Trim(Entered(t.window, point.stamp, point.kb, peak), point.stamp)),
                      Extended(chain, point))
  {
    var longer := chain + [point];
    assert longer == Extended(chain, point);
    NewestOfExtended(chain, point);
    ExtendingKeepsOrder(t.window, point, peak);
    var next := Trim(Entered(t.window, point.stamp, point.kb, peak), point.stamp);
    forall p | p in longer ensures Kept(next, Newest(longer), p) {
      ExtendingKeeps(t.window, point, peak, p);
    }
  }

  lemma RestartingRemembers(t: Track, chain: seq<Point>, point: Point, peak: int)
    requires Remembers(t, chain) && Restarts(t.window, point.stamp) && peak >= point.kb
    ensures Remembers(Track(Trim(Entered(t.window, point.stamp, point.kb, peak), point.stamp), Some(point.stamp),
                            t.retired),
                      Extended(chain, point))
  {
    var window := [Point(point.stamp, peak)];
    assert Entered(t.window, point.stamp, point.kb, peak) == window;
    SinceAll(window, point.stamp - 60.0);
    assert Extended(chain, point) == [point];
    assert window[0] in window;
  }

  /** On every history the window is a faithful summary of the chain. */
  lemma {:induction false} WindowRemembersChain(calls: seq<Call>)
    ensures Remembers(After(calls), Chain(calls))
  {
    if calls != [] {
      var before := calls[..|calls| - 1];
      var c := calls[|calls| - 1];
      WindowRemembersChain(before);
      var t, chain := After(before), Chain(before);
      StepByKind(t, c);
      if Accepted(c) {
        var point := Point(c.reading.stamp, c.reading.measured);
        var peak := RulingPeak(Resume(t, c), c.reading);
        if Restarts(t.window, point.stamp) {
          RestartingRemembers(t, chain, point, peak);
        } else {
          ExtendingRemembers(t, chain, point, peak);
        }
      }
    }
  }

  /** A closing call covers the chain it closes: 5/4 of everything measured in the chain's
      last sixty seconds, unless 128 newer points displaced it. */
  lemma {:induction false} ClosingCoversChain(calls: seq<Call>, c: Call, p: Point)
    requires var a := Resume(After(calls), c); Closes(a, c.reading)
    requires p in Chain(calls + [c]) && p.stamp >= Newest(Chain(calls + [c])) - 60.0
    ensures var a := Resume(After(calls), c);
            var window := WindowAfter(a, c.reading);
      4 * Amount(a, c.reading) + 3 >= 5 * p.kb || (|window| == 128 && p.stamp < window[0].stamp)
  {
    var a := Resume(After(calls), c);
    var window := WindowAfter(a, c.reading);
    assert (calls + [c])[..|calls|] == calls;
    WindowRemembersChain(calls + [c]);
    ClosingCoversWindow(a, c.reading);
    assert Kept(window, Newest(Chain(calls + [c])), p);
    if Stands(window, p) {
      var w :| w in window && w.stamp >= p.stamp && w.kb >= p.kb;
      assert 4 * Amount(a, c.reading) + 3 >= 5 * w.kb;
    }
  }

  /** A closing call's chain is unbroken and spans more than sixty seconds. */
  lemma {:induction false} ClosingChainIsLong(calls: seq<Call>, c: Call)
    requires var a := Resume(After(calls), c); Closes(a, c.reading)
    ensures var chain := Chain(calls + [c]);
      && Accepted(c) && GapsAtMostFive(chain)
      && chain != [] && chain[|chain| - 1] == Point(c.reading.stamp, c.reading.measured)
      && chain[|chain| - 1].stamp - chain[0].stamp > 60.0
  {
    assert (calls + [c])[..|calls|] == calls;
    WindowRemembersChain(calls + [c]);
    ChainIsUnbroken(calls + [c]);
    StepByKind(After(calls), c);
  }

  /** Peak retirement. Take any history of calls, then one more adaptive call on an
      elastic, certain job that lowers its allowance. Either the call closes a chain (see
      ClosingChainIsLong and ClosingCoversChain), or no peak has ever been retired and a
      complete fresh observation still covers 5/4 of the lifetime peak. */
  lemma LoweringIsJustified(calls: seq<Call>, c: Call)
    requires c.reading.adaptive && Certain(c.record) && Sane(c.record, c.reading)
    requires Amount(Resume(After(calls), c), c.reading) < c.record.Reserve()
    ensures var a := Resume(After(calls), c);
      && Accepted(c)
      && (Closes(a, c.reading)
          || (!Retired(a) && 4 * Amount(a, c.reading) + 3 >= 5 * Max(c.reading.measured, a.observedPeakKb)))
  {
    if !Closes(Resume(After(calls), c), c.reading) {
      ShrinkNeedsClosedChain(Resume(After(calls), c), c.reading);
    }
  }

  /** Retirement is for life: once some chain has closed, every later lowering closes another. */
  lemma {:induction false} RetirementIsPermanent(calls: seq<Call>, later: seq<Call>)
    requires forall c :: c in calls + later ==> c.reading.measured >= 0
    requires After(calls).retired.Some? && After(calls).retired.value >= 0
    ensures After(calls + later).retired.Some? && After(calls + later).retired.value >= 0
  {
    if later == [] {
      assert calls + later == calls;
    } else {
      var n := |later| - 1;
      assert (calls + later)[..|calls + later| - 1] == calls + later[..n];
      RetirementIsPermanent(calls, later[..n]);
      var t := After(calls + later[..n]);
      if Accepted(later[n]) {
        SettledCoversMeasured(Resume(t, later[n]), later[n].reading);
      }
    }
  }
}
