/** What is predicted of a compiler run, in figures (predict and record_profile in
    libexec/compiler_profiles.py). */
module Predictions {
  import opened Common
  import opened CompilerProfiles

  /** A run of the last seven days. */
  predicate Valid(s: Sample, now: real) { s.at <= now <= s.at + 604800.0 }

  function CountValid(samples: seq<Sample>, now: real): nat {
    if samples == [] then 0 else CountValid(samples[1..], now) + if Valid(samples[0], now) then 1 else 0
  }

  /** Valid runs after a moment. */
  function CountLater(samples: seq<Sample>, now: real, at: real): nat {
    if samples == [] then 0
    else CountLater(samples[1..], now, at) + if Valid(samples[0], now) && samples[0].at > at then 1 else 0
  }

  lemma {:induction false} CountsLast(samples: seq<Sample>, now: real, at: real)
    requires samples != []
    ensures var front, last := samples[..|samples| - 1], samples[|samples| - 1];
      && CountValid(samples, now) == CountValid(front, now) + (if Valid(last, now) then 1 else 0)
      && CountLater(samples, now, at) == CountLater(front, now, at) + if Valid(last, now) && last.at > at then 1 else 0
  {
    if |samples| > 1 {
      CountsLast(samples[1..], now, at);
      assert samples[..|samples| - 1][1..] == samples[1..][..|samples| - 2];
    }
  }

  /** The samples that count are the valid ones. */
  lemma {:induction false} FreshExactly(samples: seq<Sample>, now: real, at: real)
    ensures |Fresh(samples, now)| == CountValid(samples, now)
    ensures LaterSamples(Fresh(samples, now), at) == CountLater(samples, now, at)
    ensures forall s :: s in Fresh(samples, now) <==> s in samples && Valid(s, now)
  {
    if samples != [] {
      var front, last := samples[..|samples| - 1], samples[|samples| - 1];
      FreshExactly(front, now, at);
      CountsLast(samples, now, at);
      LaterOneMore(Fresh(front, now), last, at);
      assert Fresh(front, now) + [] == Fresh(front, now);
      assert samples == front + [last];
    }
  }

  // ----------------------------------------------------------------- prediction

  /** The floor a partial run left stands until three valid runs came after it. */
  function Floor(row: Row, now: real): nat {
    if row.floor.None? || CountLater(row.samples, now, row.floor.value.at) >= 3 then 0 else row.floor.value.kb
  }

  predicate LargestPeak(row: Row, now: real, x: nat) {
    && (forall s :: s in row.samples && Valid(s, now) ==> s.peak <= x)
    && exists s :: s in row.samples && Valid(s, now) && s.peak == x
  }

  predicate LeastBytes(row: Row, now: real, x: nat) {
    && (forall s :: s in row.samples && Valid(s, now) ==> x <= s.bytes)
    && exists s :: s in row.samples && Valid(s, now) && s.bytes == x
  }

  predicate LeastFiles(row: Row, now: real, x: nat) {
    && (forall s :: s in row.samples && Valid(s, now) ==> x <= s.files)
    && exists s :: s in row.samples && Valid(s, now) && s.files == x
  }

  /** Three halves of a number, rounded up. */
  predicate HalfMore(kb: int, peak: int) { 3 * peak <= 2 * kb <= 3 * peak + 1 }

  /** The least integer that is three halves of a peak, as often as the sources have grown. */
  predicate Grows(kb: int, peak: nat, growth: real) {
    kb as real >= peak as real * 1.5 * growth && (kb - 1) as real < peak as real * 1.5 * growth
  }

  /** At least one, and the larger of the ratios of bytes and of files. */
  predicate IsGrowth(growth: real, p: Profile, bytes: nat, files: nat) {
    && growth >= 1.0 && growth * Max(1, bytes) as real >= p.bytes as real
    && growth * Max(1, files) as real >= p.files as real
    && (growth == 1.0 || growth * Max(1, bytes) as real == p.bytes as real
        || growth * Max(1, files) as real == p.files as real)
  }

  /** The sources are at most a fifth larger. */
  predicate Alike(p: Profile, bytes: nat, files: nat) { 5 * p.bytes <= 6 * bytes && 5 * p.files <= 6 * files }

  lemma {:induction false} PeakIsOne(samples: seq<Sample>)
    requires samples != []
    ensures exists s :: s in samples && s.peak == MaxPeak(samples)
    ensures exists s :: s in samples && s.bytes == MinBytes(samples)
    ensures exists s :: s in samples && s.files == MinFiles(samples)
  {
    var n := |samples| - 1;
    assert samples[n] in samples;
    if n == 0 {
      assert samples[..n] == [] && MaxPeak([]) == 0;
    } else {
      PeakIsOne(samples[..n]);
      assert forall s :: s in samples[..n] ==> s in samples;
    }
  }

  lemma MostOfValid(row: Row, now: real)
    requires CountValid(row.samples, now) >= 1
    ensures var valid := Fresh(row.samples, now);
      && valid != [] && LargestPeak(row, now, MaxPeak(valid))
      && LeastBytes(row, now, MinBytes(valid))
      && LeastFiles(row, now, MinFiles(valid))
  {
    FreshExactly(row.samples, now, 0.0);
    PeakIsOne(Fresh(row.samples, now));
  }

  lemma MarginExactly(peak: nat)
    ensures HalfMore(Margin(peak), peak)
  {
  }

  lemma RatioExactly(n: nat, before: nat)
    ensures Ratio(n, before) * Max(1, before) as real == n as real
  {
  }

  lemma RatioTimes(x: real, n: nat, before: nat)
    requires x >= Ratio(n, before)
    ensures x * Max(1, before) as real >= n as real
    ensures x == Ratio(n, before) ==> x * Max(1, before) as real == n as real
  {
    RatioExactly(n, before);
    var m := Max(1, before) as real;
    assert (x - Ratio(n, before)) * m >= 0.0;
  }

  lemma GrowthExactly(p: Profile, bytes: nat, files: nat)
    ensures IsGrowth(CompilerProfiles.Growth(p, bytes, files), p, bytes, files)
  {
    var g := CompilerProfiles.Growth(p, bytes, files);
    RatioTimes(g, p.bytes, bytes);
    RatioTimes(g, p.files, files);
  }

  lemma AlikeExactly(p: Profile, bytes: nat, files: nat)
    ensures Near(p, bytes, files) <==> Alike(p, bytes, files)
  {
  }

  /** The largest peak of the valid runs, the least bytes and files, three halves of the peak,
      how much the sources have grown, and three halves of the peak times that. */
  datatype Figures = Figures(peak: nat, bytes: nat, files: nat, padded: nat, growth: real, grown: int)

  predicate Figured(row: Row, p: Profile, now: real, f: Figures) {
    && LargestPeak(row, now, f.peak) && HalfMore(f.padded, f.peak)
    && LeastBytes(row, now, f.bytes) && LeastFiles(row, now, f.files)
    && IsGrowth(f.growth, p, f.bytes, f.files) && Grows(f.grown, f.peak, f.growth)
  }

  function FiguresOf(row: Row, p: Profile, now: real): Figures
    requires Fresh(row.samples, now) != []
  {
    var valid := Fresh(row.samples, now);
    var growth := CompilerProfiles.Growth(p, MinBytes(valid), MinFiles(valid));
    Figures(MaxPeak(valid), MinBytes(valid), MinFiles(valid), Margin(MaxPeak(valid)), growth,
            Scaled(MaxPeak(valid), growth))
  }

  lemma FiguresAreRight(row: Row, p: Profile, now: real)
    requires CountValid(row.samples, now) >= 1
    ensures Fresh(row.samples, now) != [] && Figured(row, p, now, FiguresOf(row, p, now))
  {
    MostOfValid(row, now);
    var f := FiguresOf(row, p, now);
    MarginExactly(f.peak);
    GrowthExactly(p, f.bytes, f.files);
    ScaledExactly(f.peak, f.growth);
  }

  lemma ScaledExactly(peak: nat, growth: real)
    ensures Grows(Scaled(peak, growth), peak, growth)
  {
  }

  lemma FloorExactly(row: Row, now: real)
    ensures StandingFloor(row, Fresh(row.samples, now)) == Floor(row, now)
  {
    FreshExactly(row.samples, now, if row.floor.Some? then row.floor.value.at else 0.0);
  }

  /** With fewer than three valid runs it is the prior or the floor. With three it rises at once
      to three halves of their largest peak, half a GiB or the floor, and falls to no less than
      that times the growth of the sources, and only if they are at most a fifth larger than
      the smallest of those runs. */
  function Predicted(row: Row, p: Profile, prior: nat, now: real, f: Figures): Prediction {
    var floor := Floor(row, now);
    if CountValid(row.samples, now) < 3 then
      Prediction(Max(prior, floor), if |row.samples| >= 3 then Stale else Insufficient)
    else if Max(Max(524288, f.padded), floor) >= prior then Prediction(Max(Max(524288, f.padded), floor), Reused)
    else if !Alike(p, f.bytes, f.files) then Prediction(Max(prior, floor), Grown)
    else Prediction(Max(Max(524288, f.grown), floor), Reused)
  }

  lemma PredictedExactly(row: Row, p: Profile, prior: nat, now: real) returns (f: Figures)
    ensures CountValid(row.samples, now) >= 3 ==> Figured(row, p, now, f)
    ensures PredictFrom(row, p, prior, now) == Predicted(row, p, prior, now, f)
  {
    FreshExactly(row.samples, now, 0.0);
    FloorExactly(row, now);
    f := Figures(0, 0, 0, 0, 1.0, 0);
    if CountValid(row.samples, now) >= 3 {
      FiguresAreRight(row, p, now);
      f := FiguresOf(row, p, now);
      AlikeExactly(p, f.bytes, f.files);
    }
  }

  // ------------------------------------------------------------------ recording

  /** What one run leaves of a row: a complete one joins the valid ones, of which the newest
      twenty are kept; another raises the floor to three halves of its peak or leaves it. */
  lemma ObservedExactly(row: Row, p: Profile, peak: nat, complete: bool, now: real)
    returns (kb: nat, valid: seq<Sample>)
    ensures HalfMore(kb, peak) && |valid| == CountValid(row.samples, now)
    ensures forall s :: s in valid <==> s in row.samples && Valid(s, now)
    ensures var after := Observed(row, p, peak, complete, now);
            var all := valid + [Sample(peak, now, p.bytes, p.files)];
            var raises := kb > if row.floor.Some? then row.floor.value.kb else 0;
      && after.family == p.family && after.components == p.components
      && after.samples == (if !complete then row.samples else if |all| > 20 then all[|all| - 20..] else all)
      && after.floor == (if complete || !raises then row.floor else Some(CompilerProfiles.Floor(kb, now)))
  {
    kb, valid := Margin(peak), Fresh(row.samples, now);
    MarginExactly(peak);
    FreshExactly(row.samples, now, 0.0);
  }
}
