/** Predicting the memory of compiler runs across edits (libexec/compiler_profiles.py), in KiB. */
module CompilerProfiles {
  import opened Common

  /** Seven days, in seconds. */
  const MAX_AGE: real := 604800.0
  const MAX_SAMPLES: nat := 20
  const MAX_ROWS: nat := 256

  datatype Components = Components(workers: Token, tool: Token, config: Token, env: Token)

  datatype Profile = Profile(key: Token, family: Option<Token>, components: Option<Components>, bytes: nat, files: nat)

  datatype Sample = Sample(peak: nat, at: real, bytes: nat, files: nat)

  /** The largest peak of a run that was not completely observed, padded, and when it was seen. */
  datatype Floor = Floor(kb: nat, at: real)

  datatype Row = Row(family: Option<Token>, components: Option<Components>, samples: seq<Sample>, floor: Option<Floor>)

  datatype Entry = Entry(key: Token, row: Row)

  const NEW_ROW: Row := Row(None, None, [], None)

  /** Three halves of a peak, rounded up. */
  function Margin(peak: nat): nat { (3 * peak + 1) / 2 }

  /** The least integer that is not below x. */
  function Ceil(x: real): (n: int)
    ensures (n - 1) as real < x <= n as real
  {
    -((-x).Floor)
  }

  // ------------------------------------------------------------------ recording

  function Fresh(samples: seq<Sample>, now: real): seq<Sample> {
    if samples == [] then []
    else
      var last := samples[|samples| - 1];
      Fresh(samples[..|samples| - 1], now) + if 0.0 <= now - last.at <= MAX_AGE then [last] else []
  }

  function Recent(samples: seq<Sample>): seq<Sample> {
    if |samples| <= MAX_SAMPLES then samples else samples[|samples| - MAX_SAMPLES..]
  }

  function FloorOf(row: Row): nat { if row.floor.Some? then row.floor.value.kb else 0 }

  /** A complete run is one more sample; an incomplete one may raise the floor. */
  function Observed(row: Row, p: Profile, peak: nat, complete: bool, now: real): Row {
    var named := row.(family := p.family, components := p.components);
    if complete then named.(samples := Recent(Fresh(row.samples, now) + [Sample(peak, now, p.bytes, p.files)]))
    else if Margin(peak) > FloorOf(row) then named.(floor := Some(Floor(Margin(peak), now)))
    else named
  }

  function RowOf(rows: seq<Entry>, key: Token): Option<Row> {
    if rows == [] then None
    else if rows[|rows| - 1].key == key then Some(rows[|rows| - 1].row)
    else RowOf(rows[..|rows| - 1], key)
  }

  function Removed(rows: seq<Entry>, key: Token): seq<Entry> {
    if rows == [] then []
    else
      var last := rows[|rows| - 1];
      Removed(rows[..|rows| - 1], key) + if last.key == key then [] else [last]
  }

  /** The most recently recorded rows. */
  function Kept(rows: seq<Entry>): seq<Entry> { if |rows| <= MAX_ROWS then rows else rows[|rows| - MAX_ROWS..] }

  function Recorded(rows: seq<Entry>, p: Profile, peak: nat, complete: bool, now: real): seq<Entry> {
    Kept(Removed(rows, p.key) + [Entry(p.key, Observed(RowOf(rows, p.key).GetOr(NEW_ROW), p, peak, complete, now))])
  }

  /** A dictionary of rows in the order they were last recorded. */
  class History {
    var rows: seq<Entry>

    constructor ()
      ensures rows == []
    {
      rows := [];
    }

    /** Record one observed run; the least recently recorded rows go when there are too many. */
    method Record(p: Profile, peak: nat, complete: bool, now: real)
      modifies this
      ensures rows == Recorded(old(rows), p, peak, complete, now)
    {
      var row := RowOf(rows, p.key).GetOr(NEW_ROW);
      rows := Removed(rows, p.key);
      row := row.(family := p.family, components := p.components);
      if complete {
        row := row.(samples := Recent(Fresh(row.samples, now) + [Sample(peak, now, p.bytes, p.files)]));
      } else if Margin(peak) > FloorOf(row) {
        row := row.(floor := Some(Floor(Margin(peak), now)));
      }
      rows := rows + [Entry(p.key, row)];
      ghost var all := rows;
      while |rows| > MAX_ROWS
        invariant |rows| >= MAX_ROWS || rows == all
        invariant |rows| <= |all| && rows == all[|all| - |rows|..]
      {
        rows := rows[1..];
      }
    }
  }

  /** Recording touches one row only: that row is last, and every other row kept is as it was. */
  lemma OtherRowsKept(rows: seq<Entry>, p: Profile, peak: nat, complete: bool, now: real, key: Token)
    ensures var after := Recorded(rows, p, peak, complete, now);
      && 0 < |after| <= MAX_ROWS && after[|after| - 1].key == p.key
      && RowOf(after, p.key) == Some(Observed(RowOf(rows, p.key).GetOr(NEW_ROW), p, peak, complete, now))
      && (key != p.key && RowOf(after, key).Some? ==> RowOf(after, key) == RowOf(rows, key))
      && (key != p.key && |rows| < MAX_ROWS ==> RowOf(after, key) == RowOf(rows, key))
  {
    RemovedRows(rows, p.key, key);
    var e := Entry(p.key, Observed(RowOf(rows, p.key).GetOr(NEW_ROW), p, peak, complete, now));
    var all := Removed(rows, p.key) + [e];
    assert all[..|all| - 1] == Removed(rows, p.key);
    if |all| > MAX_ROWS {
      SuffixRows(all, |all| - MAX_ROWS, key);
    }
  }

  lemma {:induction false} RemovedRows(rows: seq<Entry>, gone: Token, key: Token)
    ensures |Removed(rows, gone)| <= |rows|
    ensures key != gone ==> RowOf(Removed(rows, gone), key) == RowOf(rows, key)
  {
    if rows != [] {
      var front, last := rows[..|rows| - 1], rows[|rows| - 1];
      RemovedRows(front, gone, key);
      if last.key == gone {
        assert Removed(front, gone) + [] == Removed(front, gone);
      } else {
        assert (Removed(front, gone) + [last])[..|Removed(front, gone)|] == Removed(front, gone);
      }
    }
  }

  lemma {:induction false} SuffixRows(rows: seq<Entry>, from: nat, key: Token)
    requires from <= |rows|
    ensures RowOf(rows[from..], key).Some? ==> RowOf(rows[from..], key) == RowOf(rows, key)
    decreases |rows|
  {
    if from < |rows| {
      var suffix := rows[from..];
      assert suffix[..|suffix| - 1] == rows[..|rows| - 1][from..];
      SuffixRows(rows[..|rows| - 1], from, key);
    }
  }

  // ----------------------------------------------------------------- prediction

  datatype Reason =
    | Unsupported | Reused | Cold | Insufficient | Stale | Grown
    | OtherWorkers | OtherTool | OtherConfig | OtherEnv

  datatype Prediction = Prediction(kb: int, reason: Reason)

  /** The latest row of the same command in the same place, if its components are known. */
  function Relative(rows: seq<Entry>, family: Option<Token>): Option<Components> {
    if rows == [] then None
    else
      var last := rows[|rows| - 1].row;
      if last.family == family && last.components.Some? then last.components else Relative(rows[..|rows| - 1], family)
  }

  /** Why nothing is known of a profile. */
  function ColdReason(rows: seq<Entry>, p: Profile): Reason {
    match Relative(rows, p.family)
    case None => Cold
    case Some(c) =>
      if p.components.None? || c.workers != p.components.value.workers then OtherWorkers
      else if c.tool != p.components.value.tool then OtherTool
      else if c.config != p.components.value.config then OtherConfig
      else if c.env != p.components.value.env then OtherEnv
      else Cold
  }

  function LaterSamples(samples: seq<Sample>, at: real): nat {
    if samples == [] then 0
    else LaterSamples(samples[..|samples| - 1], at) + if samples[|samples| - 1].at > at then 1 else 0
  }

  function MaxPeak(samples: seq<Sample>): (m: nat)
    ensures forall s :: s in samples ==> s.peak <= m
  {
    if samples == [] then 0 else Max(MaxPeak(samples[..|samples| - 1]), samples[|samples| - 1].peak)
  }

  function MinBytes(samples: seq<Sample>): (m: nat)
    requires samples != []
    ensures forall s :: s in samples ==> m <= s.bytes
  {
    if |samples| == 1 then samples[0].bytes else Min(MinBytes(samples[..|samples| - 1]), samples[|samples| - 1].bytes)
  }

  function MinFiles(samples: seq<Sample>): (m: nat)
    requires samples != []
    ensures forall s :: s in samples ==> m <= s.files
  {
    if |samples| == 1 then samples[0].files else Min(MinFiles(samples[..|samples| - 1]), samples[|samples| - 1].files)
  }

  /** Three complete runs since a partial observation retire the floor it left. */
  function StandingFloor(row: Row, valid: seq<Sample>): nat {
    if row.floor.None? || LaterSamples(valid, row.floor.value.at) >= 3 then 0 else row.floor.value.kb
  }

  function Ratio(now: nat, before: nat): real { now as real / Max(1, before) as real }

  /** How much the sources have grown since the smallest of the samples. */
  function Growth(p: Profile, bytes: nat, files: nat): real {
    MaxReal(1.0, MaxReal(Ratio(p.bytes, bytes), Ratio(p.files, files)))
  }

  /** The sources are at most a fifth larger than the smallest sampled. */
  predicate Near(p: Profile, bytes: nat, files: nat) {
    p.bytes as real <= bytes as real * 1.2 && p.files as real <= files as real * 1.2
  }

  function Scaled(peak: nat, growth: real): int { Ceil(peak as real * 1.5 * growth) }

  function PredictFrom(row: Row, p: Profile, prior: nat, now: real): Prediction {
    var valid := Fresh(row.samples, now);
    var floor := StandingFloor(row, valid);
    if |valid| < 3 then Prediction(Max(prior, floor), if |row.samples| >= 3 then Stale else Insufficient)
    else
      var target := Max(Max(GIB / 2, Margin(MaxPeak(valid))), floor);
      if target >= prior then Prediction(target, Reused)
      else if !Near(p, MinBytes(valid), MinFiles(valid)) then Prediction(Max(prior, floor), Grown)
      else Prediction(Max(Max(GIB / 2, Scaled(MaxPeak(valid), Growth(p, MinBytes(valid), MinFiles(valid)))), floor),
                      Reused)
  }

  function Predict(rows: seq<Entry>, profile: Option<Profile>, prior: nat, now: real): Prediction {
    match profile
    case None => Prediction(prior, Unsupported)
    case Some(p) =>
      match RowOf(rows, p.key)
      case None => Prediction(prior, ColdReason(rows, p))
      case Some(row) => PredictFrom(row, p, prior, now)
  }

  lemma ScaledCovers(peak: nat, growth: real)
    requires growth >= 1.0
    ensures Scaled(peak, growth) >= Margin(peak)
  {
    var x := peak as real * 1.5;
    assert x * growth >= x;
    assert (Margin(peak) - 1) as real < x;
  }

  lemma PeaksCovered(samples: seq<Sample>)
    ensures forall s :: s in samples ==> Margin(s.peak) <= Margin(MaxPeak(samples))
  {
  }

  lemma NearAll(p: Profile, samples: seq<Sample>)
    requires samples != [] && Near(p, MinBytes(samples), MinFiles(samples))
    ensures forall s :: s in samples ==> Near(p, s.bytes, s.files)
  {
  }

  predicate AtLeastScaled(kb: int, peak: nat, ratio: real) { kb as real >= peak as real * 1.5 * ratio }

  /** Three halves of a sampled peak, scaled by how much the sources grew since that sample. */
  predicate CoversScaled(kb: int, s: Sample, p: Profile) {
    AtLeastScaled(kb, s.peak, Ratio(p.bytes, s.bytes)) && AtLeastScaled(kb, s.peak, Ratio(p.files, s.files))
  }

  lemma ProductGrows(a: real, b: real, x: real, y: real)
    requires 0.0 <= a <= b && 0.0 <= x <= y
    ensures a * x <= b * y
  {
    assert a * x <= b * x <= b * y;
  }

  lemma RatioFalls(n: nat, least: nat, size: nat)
    requires least <= size
    ensures 0.0 <= Ratio(n, size) <= Ratio(n, least)
  {
    var a, b := Max(1, least) as real, Max(1, size) as real;
    assert 0.0 < a <= b;
    assert n as real * a <= n as real * b;
  }

  lemma {:induction false} GrowthCovers(s: Sample, samples: seq<Sample>, p: Profile)
    requires samples != [] && s in samples
    ensures var growth := Growth(p, MinBytes(samples), MinFiles(samples));
      0.0 <= Ratio(p.bytes, s.bytes) <= growth && 0.0 <= Ratio(p.files, s.files) <= growth
  {
    RatioFalls(p.bytes, MinBytes(samples), s.bytes);
    RatioFalls(p.files, MinFiles(samples), s.files);
  }

  lemma ScaledAtLeast(peak: nat, most: nat, ratio: real, growth: real)
    requires peak <= most && 0.0 <= ratio <= growth
    ensures AtLeastScaled(Scaled(most, growth), peak, ratio)
  {
    ProductGrows(peak as real * 1.5, most as real * 1.5, ratio, growth);
  }

  lemma {:induction false} ScaledCoversSample(s: Sample, samples: seq<Sample>, p: Profile, growth: real)
    requires samples != [] && s in samples && growth == Growth(p, MinBytes(samples), MinFiles(samples))
    ensures CoversScaled(Scaled(MaxPeak(samples), growth), s, p)
  {
    GrowthCovers(s, samples, p);
    ScaledAtLeast(s.peak, MaxPeak(samples), Ratio(p.bytes, s.bytes), growth);
    ScaledAtLeast(s.peak, MaxPeak(samples), Ratio(p.files, s.files), growth);
  }

  lemma CoversMore(kb: int, more: int, s: Sample, p: Profile)
    requires CoversScaled(kb, s, p) && kb <= more
    ensures CoversScaled(more, s, p)
  {
  }

  /** A prediction falls below the prior estimate only on evidence: at least three complete
      runs of the last week, of sources no more than a fifth smaller in bytes or files than
      these. It then still covers three halves of each of their peaks, half a GiB, and any
      partial peak that three complete runs have not followed. */
  lemma {:induction false} ShrinksOnEvidence(row: Row, p: Profile, prior: nat, now: real)
    ensures PredictFrom(row, p, prior, now).kb >= StandingFloor(row, Fresh(row.samples, now))
    ensures var valid := Fresh(row.samples, now);
            var kb := PredictFrom(row, p, prior, now).kb;
      kb < prior ==>
        && |valid| >= 3 && kb >= GIB / 2
        && kb >= Scaled(MaxPeak(valid), Growth(p, MinBytes(valid), MinFiles(valid)))
        && forall s :: s in valid ==> kb >= Margin(s.peak) && Near(p, s.bytes, s.files)
  {
    var valid := Fresh(row.samples, now);
    if |valid| >= 3 && Near(p, MinBytes(valid), MinFiles(valid)) {
      ScaledCovers(MaxPeak(valid), Growth(p, MinBytes(valid), MinFiles(valid)));
      PeaksCovered(valid);
      NearAll(p, valid);
    }
  }

  /** And it covers each of those peaks scaled by how much the sources grew since that run. */
  lemma {:induction false} ShrinkAllowsForGrowth(row: Row, p: Profile, prior: nat, now: real, s: Sample)
    ensures s in Fresh(row.samples, now) && PredictFrom(row, p, prior, now).kb < prior ==>
      CoversScaled(PredictFrom(row, p, prior, now).kb, s, p)
  {
    var valid := Fresh(row.samples, now);
    if s in valid && PredictFrom(row, p, prior, now).kb < prior {
      var growth := Growth(p, MinBytes(valid), MinFiles(valid));
      ShrinksOnEvidence(row, p, prior, now);
      ScaledCoversSample(s, valid, p, growth);
      CoversMore(Scaled(MaxPeak(valid), growth), PredictFrom(row, p, prior, now).kb, s, p);
    }
  }

  /** Of all that a history holds, only the row of this very profile can lower a prediction. */
  lemma OnlyItsOwnRowLowers(rows: seq<Entry>, profile: Option<Profile>, prior: nat, now: real)
    ensures Predict(rows, profile, prior, now).kb < prior ==>
      && profile.Some? && RowOf(rows, profile.value.key).Some?
      && var valid := Fresh(RowOf(rows, profile.value.key).value.samples, now);
      && |valid| >= 3 && forall s :: s in valid ==> Predict(rows, profile, prior, now).kb >= Margin(s.peak)
  {
    if profile.Some? && RowOf(rows, profile.value.key).Some? {
      ShrinksOnEvidence(RowOf(rows, profile.value.key).value, profile.value, prior, now);
    }
  }

  // ------------------------------------------------------------------ histories

  /** One observed run of the compiler with this profile. */
  datatype Observation = Observation(profile: Profile, peak: nat, complete: bool, now: real)

  function RowAfter(runs: seq<Observation>): Row {
    if runs == [] then NEW_ROW
    else
      var o := runs[|runs| - 1];
      Observed(RowAfter(runs[..|runs| - 1]), o.profile, o.peak, o.complete, o.now)
  }

  /** Complete runs observed after a moment. */
  function LaterRuns(runs: seq<Observation>, at: real): nat {
    if runs == [] then 0
    else LaterRuns(runs[..|runs| - 1], at) + if runs[|runs| - 1].complete && runs[|runs| - 1].now > at then 1 else 0
  }

  lemma {:induction false} LaterFresh(samples: seq<Sample>, now: real, at: real)
    ensures LaterSamples(Fresh(samples, now), at) <= LaterSamples(samples, at)
  {
    if samples != [] {
      var front, last := samples[..|samples| - 1], samples[|samples| - 1];
      LaterFresh(front, now, at);
      LaterOneMore(Fresh(front, now), last, at);
      assert Fresh(front, now) + [] == Fresh(front, now);
    }
  }

  lemma LaterOneMore(samples: seq<Sample>, last: Sample, at: real)
    ensures LaterSamples(samples + [last], at) == LaterSamples(samples, at) + if last.at > at then 1 else 0
  {
    assert (samples + [last])[..|samples|] == samples;
  }

  lemma {:induction false} LaterRecent(samples: seq<Sample>, from: nat, at: real)
    requires from <= |samples|
    ensures LaterSamples(samples[from..], at) <= LaterSamples(samples, at)
    decreases |samples|
  {
    if from < |samples| {
      var suffix := samples[from..];
      assert suffix[..|suffix| - 1] == samples[..|samples| - 1][from..];
      LaterRecent(samples[..|samples| - 1], from, at);
    }
  }

  lemma LaterRecorded(samples: seq<Sample>, s: Sample, now: real, at: real)
    ensures LaterSamples(Recent(Fresh(samples, now) + [s]), at)
      <= LaterSamples(samples, at) + if s.at > at then 1 else 0
  {
    LaterFresh(samples, now, at);
    LaterOneMore(Fresh(samples, now), s, at);
    var all := Fresh(samples, now) + [s];
    if |all| > MAX_SAMPLES {
      LaterRecent(all, |all| - MAX_SAMPLES, at);
    }
  }

  /** The samples on record are complete runs, none counted twice. */
  lemma {:induction false} SamplesAreRuns(runs: seq<Observation>, at: real)
    ensures LaterSamples(RowAfter(runs).samples, at) <= LaterRuns(runs, at)
  {
    if runs != [] {
      var o := runs[|runs| - 1];
      SamplesAreRuns(runs[..|runs| - 1], at);
      LaterRecorded(RowAfter(runs[..|runs| - 1]).samples, Sample(o.peak, o.now, o.profile.bytes, o.profile.files),
                    o.now, at);
    }
  }

  /** The floor is the padded peak of some incomplete run, at its time, and no incomplete run's is larger. */
  lemma {:induction false} FloorIsLargest(runs: seq<Observation>)
    ensures forall k :: 0 <= k < |runs| && !runs[k].complete ==> Margin(runs[k].peak) <= FloorOf(RowAfter(runs))
    ensures var f := RowAfter(runs).floor; f.Some? ==>
      exists i :: 0 <= i < |runs| && !runs[i].complete && f.value == Floor(Margin(runs[i].peak), runs[i].now)
  {
    if runs != [] {
      var front := runs[..|runs| - 1];
      FloorIsLargest(front);
      assert forall k :: 0 <= k < |front| ==> front[k] == runs[k];
    }
  }

  /** A prediction below three halves of a partial peak means that a floor at least as high was
      retired: three complete runs were observed later than some incomplete run that reached
      that peak. That run need not be the one in question (see PromiseExactly). */
  lemma {:induction false} FloorsOutlastPeaks(runs: seq<Observation>, p: Profile, prior: nat, now: real, k: nat)
    returns (i: nat)
    requires k < |runs| && !runs[k].complete && PredictFrom(RowAfter(runs), p, prior, now).kb < Margin(runs[k].peak)
    ensures i < |runs| && !runs[i].complete && Margin(runs[i].peak) >= Margin(runs[k].peak)
    ensures LaterRuns(runs, runs[i].now) >= 3
  {
    var row := RowAfter(runs);
    FloorIsLargest(runs);
    ShrinksOnEvidence(row, p, prior, now);
    var f := row.floor.value;
    i :| 0 <= i < |runs| && !runs[i].complete && f == Floor(Margin(runs[i].peak), runs[i].now);
    LaterFresh(row.samples, now, f.at);
    SamplesAreRuns(runs, f.at);
  }
}
