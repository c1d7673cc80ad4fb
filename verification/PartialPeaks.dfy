/** The promise that a partial peak stays a floor until three later complete runs: exactly when
    the recorded history keeps it (libexec/compiler_profiles.py). */
module PartialPeaks {
  import opened Common
  import opened CompilerProfiles

  // --------------------------------------------------------------- continuations

  function RowFrom(row: Row, runs: seq<Observation>): Row {
    if runs == [] then row
    else
      var o := runs[|runs| - 1];
      Observed(RowFrom(row, runs[..|runs| - 1]), o.profile, o.peak, o.complete, o.now)
  }

  lemma {:induction false} RowAfterIsFrom(before: seq<Observation>, later: seq<Observation>)
    ensures RowAfter(before + later) == RowFrom(RowAfter(before), later)
  {
    if later == [] {
      assert before + later == before;
    } else {
      var all := before + later;
      assert all[..|all| - 1] == before + later[..|later| - 1];
      RowAfterIsFrom(before, later[..|later| - 1]);
    }
  }

  function Completes(runs: seq<Observation>): nat {
    if runs == [] then 0 else Completes(runs[..|runs| - 1]) + if runs[|runs| - 1].complete then 1 else 0
  }

  function LastTime(runs: seq<Observation>, t: real): real { if runs == [] then t else runs[|runs| - 1].now }

  /** All observed after a moment, each later than the one before it. */
  predicate Follow(runs: seq<Observation>, t: real) {
    runs == [] || (Follow(runs[..|runs| - 1], t) && LastTime(runs[..|runs| - 1], t) < runs[|runs| - 1].now)
  }

  lemma {:induction false} TimePasses(runs: seq<Observation>, t: real)
    requires Follow(runs, t)
    ensures LastTime(runs, t) >= t && (runs != [] ==> LastTime(runs, t) > t)
  {
    if runs != [] {
      TimePasses(runs[..|runs| - 1], t);
    }
  }

  lemma FollowLast(front: seq<Observation>, o: Observation, t: real)
    requires Follow(front + [o], t)
    ensures Follow(front, t) && LastTime(front, t) < o.now
  {
    assert (front + [o])[..|front|] == front;
  }

  // --------------------------------------------------------------------- samples

  /** Samples each later than the one before it, none later than a moment. */
  predicate Ordered(samples: seq<Sample>, t: real) {
    samples == [] ||
    var n := |samples| - 1;
    samples[n].at <= t && Ordered(samples[..n], samples[n].at) && (n > 0 ==> samples[n - 1].at < samples[n].at)
  }

  predicate Valid(s: Sample, now: real) { 0.0 <= now - s.at <= MAX_AGE }

  lemma OrderedUntil(samples: seq<Sample>, t: real, more: real)
    requires Ordered(samples, t) && t <= more
    ensures Ordered(samples, more)
  {
  }

  lemma OrderedMore(samples: seq<Sample>, t: real, s: Sample)
    requires Ordered(samples, t) && t < s.at
    ensures Ordered(samples + [s], s.at)
  {
    assert (samples + [s])[..|samples|] == samples;
    OrderedUntil(samples, t, s.at);
  }

  lemma {:induction false} OrderedSuffix(samples: seq<Sample>, t: real, k: nat)
    requires Ordered(samples, t) && k <= |samples|
    ensures Ordered(samples[k..], t)
    decreases |samples|
  {
    if k < |samples| {
      var n := |samples| - 1;
      assert samples[k..][..n - k] == samples[..n][k..];
      OrderedSuffix(samples[..n], samples[n].at, k);
    }
  }

  lemma {:induction false} EarlierAt(samples: seq<Sample>, t: real, i: nat)
    requires Ordered(samples, t) && i < |samples|
    ensures samples[i].at <= t && (i < |samples| - 1 ==> samples[i].at < samples[|samples| - 1].at)
    decreases |samples|
  {
    var n := |samples| - 1;
    if i < n {
      EarlierAt(samples[..n], samples[n - 1].at, i);
    }
  }

  lemma {:induction false} FreshJoin(a: seq<Sample>, b: seq<Sample>, now: real)
    ensures Fresh(a + b, now) == Fresh(a, now) + Fresh(b, now)
  {
    if b == [] {
      assert a + b == a;
    } else {
      var n := |b| - 1;
      assert (a + b)[..|a + b| - 1] == a + b[..n];
      FreshJoin(a, b[..n], now);
    }
  }

  lemma FreshOne(s: Sample, now: real)
    ensures Fresh([s], now) == if Valid(s, now) then [s] else []
  {
    assert [s][..0] == [];
  }

  lemma {:induction false} FreshValid(samples: seq<Sample>, now: real, k: nat)
    requires k < |Fresh(samples, now)|
    ensures Valid(Fresh(samples, now)[k], now)
    decreases |samples|
  {
    var n := |samples| - 1;
    if k < |Fresh(samples[..n], now)| {
      FreshValid(samples[..n], now, k);
    }
  }

  lemma {:induction false} NoneFresh(samples: seq<Sample>, t: real, now: real)
    requires Ordered(samples, t) && now - t > MAX_AGE
    ensures Fresh(samples, now) == []
  {
    if samples != [] {
      var n := |samples| - 1;
      NoneFresh(samples[..n], samples[n].at, now);
    }
  }

  lemma SuffixMore(front: seq<Sample>, s: Sample, k: nat)
    requires k <= |front|
    ensures front[k..] + [s] == (front + [s])[k..]
  {
  }

  /** Dropping what has lapsed from ordered samples drops the oldest only. */
  lemma {:induction false} FreshIsSuffix(samples: seq<Sample>, t: real, now: real) returns (k: nat)
    requires Ordered(samples, t) && t <= now
    ensures k <= |samples| && Fresh(samples, now) == samples[k..]
  {
    if samples == [] {
      k := 0;
    } else {
      var n := |samples| - 1;
      var s := samples[n];
      LastApart(samples);
      if Valid(s, now) {
        k := FreshIsSuffix(samples[..n], s.at, now);
        SuffixMore(samples[..n], s, k);
      } else {
        NoneFresh(samples[..n], s.at, now);
        k := n + 1;
      }
    }
  }

  // ------------------------------------------------------ what remains of a record

  /** The samples that a continuation adds. */
  function Added(runs: seq<Observation>): seq<Sample> {
    if runs == [] then []
    else
      var o := runs[|runs| - 1];
      Added(runs[..|runs| - 1]) + if o.complete then [NewSample(o)] else []
  }

  function NewSample(o: Observation): Sample { Sample(o.peak, o.now, o.profile.bytes, o.profile.files) }

  lemma {:induction false} AddedCount(runs: seq<Observation>)
    ensures |Added(runs)| == Completes(runs)
  {
    if runs != [] {
      AddedCount(runs[..|runs| - 1]);
    }
  }

  lemma SuffixOfSuffix(samples: seq<Sample>, k: nat, more: seq<Sample>, j: nat)
    requires k <= |samples| && j <= |samples[k..] + more|
    ensures (samples[k..] + more)[j..] == (samples + more)[k + j..]
  {
  }

  lemma RecentSuffix(all: seq<Sample>, k: nat, s: Sample) returns (m: nat)
    requires k <= |all|
    ensures m <= |all| + 1 && Recent(all[k..] + [s]) == (all + [s])[m..]
  {
    var j := if |all[k..] + [s]| <= MAX_SAMPLES then 0 else |all[k..] + [s]| - MAX_SAMPLES;
    SuffixOfSuffix(all, k, [s], j);
    m := k + j;
  }

  lemma SliceOfSlice(all: seq<Sample>, k: nat, i: nat)
    requires k + i <= |all|
    ensures all[k..][i..] == all[k + i..]
  {
  }

  lemma FreshSuffix(all: seq<Sample>, k: nat, t: real, now: real) returns (m: nat)
    requires Ordered(all, t) && k <= |all| && t <= now
    ensures m <= |all| && Fresh(all[k..], now) == all[m..]
  {
    OrderedSuffix(all, t, k);
    var i := FreshIsSuffix(all[k..], t, now);
    SliceOfSlice(all, k, i);
    m := k + i;
  }

  /** Recording a complete run keeps a suffix of what there was and adds its sample. */
  lemma RecordKeepsSuffix(all: seq<Sample>, k: nat, t: real, s: Sample) returns (m: nat)
    requires Ordered(all, t) && k <= |all| && t < s.at
    ensures m <= |all| + 1 && Recent(Fresh(all[k..], s.at) + [s]) == (all + [s])[m..]
  {
    var i := FreshSuffix(all, k, t, s.at);
    m := RecentSuffix(all, i, s);
  }

  lemma Join(a: seq<Sample>, b: seq<Sample>, c: seq<Sample>)
    ensures (a + b) + c == a + (b + c)
  {
  }

  /** Whatever is observed, a record holds the newest of its earlier samples and of those added. */
  lemma {:induction false} Records(row: Row, t: real, runs: seq<Observation>) returns (k: nat)
    requires Ordered(row.samples, t) && Follow(runs, t)
    ensures Ordered(row.samples + Added(runs), LastTime(runs, t))
    ensures k <= |row.samples + Added(runs)| && RowFrom(row, runs).samples == (row.samples + Added(runs))[k..]
  {
    if runs == [] {
      assert row.samples + [] == row.samples;
      k := 0;
    } else {
      var front, o := runs[..|runs| - 1], runs[|runs| - 1];
      k := Records(row, t, front);
      var all := row.samples + Added(front);
      if o.complete {
        OrderedMore(all, LastTime(front, t), NewSample(o));
        Join(row.samples, Added(front), [NewSample(o)]);
        k := RecordKeepsSuffix(all, k, LastTime(front, t), NewSample(o));
      } else {
        OrderedUntil(all, LastTime(front, t), o.now);
        assert Added(front) + [] == Added(front);
      }
    }
  }

  /** And those of them that are valid at some later time are again the newest. */
  lemma ValidThen(row: Row, t: real, runs: seq<Observation>, now: real) returns (m: nat)
    requires Ordered(row.samples, t) && Follow(runs, t) && now >= LastTime(runs, t)
    ensures var all := row.samples + Added(runs);
      m <= |all| && Fresh(RowFrom(row, runs).samples, now) == all[m..]
  {
    var k := Records(row, t, runs);
    m := FreshSuffix(row.samples + Added(runs), k, LastTime(runs, t), now);
  }

  /** A floor is only ever raised. */
  lemma {:induction false} FloorFrom(row: Row, t: real, runs: seq<Observation>)
    requires Follow(runs, t)
    ensures FloorOf(RowFrom(row, runs)) >= FloorOf(row)
    ensures RowFrom(row, runs).floor == row.floor
            || (RowFrom(row, runs).floor.Some? && RowFrom(row, runs).floor.value.at > t)
  {
    if runs != [] {
      TimePasses(runs, t);
      FloorFrom(row, t, runs[..|runs| - 1]);
    }
  }

  lemma {:induction false} LaterJoin(a: seq<Sample>, b: seq<Sample>, at: real)
    ensures LaterSamples(a + b, at) == LaterSamples(a, at) + LaterSamples(b, at)
  {
    if b == [] {
      assert a + b == a;
    } else {
      assert (a + b)[..|a + b| - 1] == a + b[..|b| - 1];
      LaterJoin(a, b[..|b| - 1], at);
    }
  }

  lemma {:induction false} NoneLater(a: seq<Sample>, at: real)
    requires Ordered(a, at)
    ensures LaterSamples(a, at) == 0
  {
    if a != [] {
      OrderedUntil(a[..|a| - 1], a[|a| - 1].at, at);
      NoneLater(a[..|a| - 1], at);
    }
  }

  lemma {:induction false} LaterCount(a: seq<Sample>, at: real)
    ensures LaterSamples(a, at) <= |a|
  {
    if a != [] {
      LaterCount(a[..|a| - 1], at);
    }
  }

  // ------------------------------------------------------------------- the promise

  function Newest(row: Row): Sample
    requires row.samples != []
  {
    row.samples[|row.samples| - 1]
  }

  /** Before a partial run is recorded: it leaves the floor as it is, its padded peak is more
      than half a GiB, and the newest complete run on record came after the floor, has not
      lapsed, and was smaller. */
  predicate Exposed(row: Row, peak: nat, now: real) {
    && Margin(peak) > GIB / 2 && Margin(peak) <= FloorOf(row) && row.floor.Some? && row.samples != []
    && var newest := Newest(row);
    && newest.at > row.floor.value.at && now - newest.at < MAX_AGE && Margin(newest.peak) < Margin(peak)
  }

  /** The promise is broken by a continuation with fewer than three complete runs, after which
      some prediction is below three halves of the peak of that run. */
  predicate Breaks(before: seq<Observation>, run: Observation, later: seq<Observation>,
                   p: Profile, prior: nat, now: real)
  {
    && Follow(later, run.now) && now >= LastTime(later, run.now) && Completes(later) < 3
    && PredictFrom(RowAfter(before + [run] + later), p, prior, now).kb < Margin(run.peak)
  }

  /** The samples and the floor of a record are no later than its last run. */
  lemma {:induction false} Dated(runs: seq<Observation>, t: real)
    requires Follow(runs, t)
    ensures Ordered(RowAfter(runs).samples, LastTime(runs, t))
    ensures RowAfter(runs).floor.Some? ==> RowAfter(runs).floor.value.at <= LastTime(runs, t)
  {
    if runs != [] {
      var front, o := runs[..|runs| - 1], runs[|runs| - 1];
      Dated(front, t);
      var samples := RowAfter(front).samples;
      OrderedUntil(samples, LastTime(front, t), o.now);
      if o.complete {
        OrderedMore(samples, LastTime(front, t), NewSample(o));
        var m := RecordKeepsSuffix(samples, 0, LastTime(front, t), NewSample(o));
        assert samples[0..] == samples;
        OrderedSuffix(samples + [NewSample(o)], o.now, m);
      }
    }
  }

  predicate AllSmaller(samples: seq<Sample>, peak: nat) { forall s :: s in samples ==> Margin(s.peak) < Margin(peak) }

  lemma SmallerOne(samples: seq<Sample>, peak: nat, s: Sample)
    requires AllSmaller(samples, peak) && s in samples
    ensures Margin(s.peak) < Margin(peak)
  {
  }

  /** What a broken promise shows of the record at that time. */
  lemma RetiredBy(row: Row, p: Profile, prior: nat, now: real, peak: nat)
    requires FloorOf(row) >= Margin(peak) && PredictFrom(row, p, prior, now).kb < Margin(peak)
    ensures row.floor.Some? && LaterSamples(Fresh(row.samples, now), row.floor.value.at) >= 3
    ensures GIB / 2 < Margin(peak)
    ensures AllSmaller(Fresh(row.samples, now), peak)
  {
    var valid := Fresh(row.samples, now);
    ShrinksOnEvidence(row, p, prior, now);
    LaterCount(valid, row.floor.value.at);
    PeaksCovered(valid);
    ScaledCovers(MaxPeak(valid), Growth(p, MinBytes(valid), MinFiles(valid)));
  }

  lemma SuffixOfJoin(a: seq<Sample>, b: seq<Sample>, m: nat)
    requires m < |a|
    ensures (a + b)[m..] == a[m..] + b && (a + b)[m..][|a| - 1 - m] == a[|a| - 1] && (a + b)[m..][0] == a[m]
  {
  }

  /** Fewer than three of the valid samples were added, so the newest of the earlier ones is
      among them, and after the floor. */
  lemma OldOneRemains(samples: seq<Sample>, t: real, added: seq<Sample>, m: nat, at: real)
    requires Ordered(samples, t) && m <= |samples + added| && |added| < 3
    requires LaterSamples((samples + added)[m..], at) >= 3
    ensures m < |samples| && |samples| + |added| - m >= 3
    ensures samples[|samples| - 1].at > at
  {
    LaterCount((samples + added)[m..], at);
    SuffixOfJoin(samples, added, m);
    LaterJoin(samples[m..], added, at);
    LaterCount(added, at);
    if samples[|samples| - 1].at <= at {
      OrderedUntil(samples, samples[|samples| - 1].at, at);
      OrderedSuffix(samples, at, m);
      NoneLater(samples[m..], at);
    }
  }

  /** It has not lapsed when the partial run is recorded. */
  lemma NotLapsed(samples: seq<Sample>, t: real, later: seq<Observation>, m: nat, now: real)
    requires Ordered(samples, t) && m < |samples| && |samples| + |Added(later)| - m >= 3
    requires Follow(later, t) && now >= LastTime(later, t)
    requires Valid(samples[|samples| - 1], now) && Valid(samples[m], now)
    ensures t - samples[|samples| - 1].at < MAX_AGE
  {
    TimePasses(later, t);
    EarlierAt(samples, t, m);
  }

  function Next(row: Row, o: Observation): Row { Observed(row, o.profile, o.peak, o.complete, o.now) }

  function Then(row: Row, run: Observation, later: seq<Observation>): Row { RowFrom(Next(row, run), later) }

  lemma Appended(before: seq<Observation>, run: Observation, later: seq<Observation>)
    ensures RowAfter(before + [run] + later) == Then(RowAfter(before), run, later)
  {
    RowAfterIsFrom(before + [run], later);
    assert (before + [run])[..|before|] == before;
  }

  /** Of what is valid the first and the newest earlier one. */
  lemma ValidOnes(kept: seq<Sample>, samples: seq<Sample>, added: seq<Sample>, now: real, m: nat)
    requires m < |samples| && Fresh(kept, now) == (samples + added)[m..]
    ensures Valid(samples[m], now) && Valid(samples[|samples| - 1], now)
    ensures samples[|samples| - 1] in Fresh(kept, now)
  {
    SuffixOfJoin(samples, added, m);
    FreshValid(kept, now, 0);
    FreshValid(kept, now, |samples| - 1 - m);
  }

  /** If three valid samples are later than a moment, and fewer than three of them were added, the
      newest earlier one is later than it, has not lapsed, and is one of them. */
  lemma NewestShows(kept: seq<Sample>, samples: seq<Sample>, t: real, later: seq<Observation>, now: real, m: nat,
                    at: real)
    requires Ordered(samples, t) && Follow(later, t) && now >= LastTime(later, t) && |Added(later)| < 3
    requires m <= |samples + Added(later)| && Fresh(kept, now) == (samples + Added(later))[m..]
    requires LaterSamples(Fresh(kept, now), at) >= 3
    ensures samples != [] && samples[|samples| - 1] in Fresh(kept, now)
    ensures at < samples[|samples| - 1].at <= t && t - samples[|samples| - 1].at < MAX_AGE
  {
    OldOneRemains(samples, t, Added(later), m, at);
    ValidOnes(kept, samples, Added(later), now, m);
    NotLapsed(samples, t, later, m, now);
    EarlierAt(samples, t, |samples| - 1);
  }

  lemma ShowsAt(row: Row, run: Observation, later: seq<Observation>, now: real, at: real)
    requires Ordered(row.samples, run.now) && Follow(later, run.now)
    requires now >= LastTime(later, run.now) && Completes(later) < 3
    requires LaterSamples(Fresh(RowFrom(row, later).samples, now), at) >= 3
    ensures row.samples != [] && Newest(row) in Fresh(RowFrom(row, later).samples, now)
    ensures at < Newest(row).at <= run.now && run.now - Newest(row).at < MAX_AGE
  {
    var m := ValidThen(row, run.now, later, now);
    AddedCount(later);
    NewestShows(RowFrom(row, later).samples, row.samples, run.now, later, now, m, at);
  }

  /** The heart of the forward half: the record before the run, given the one after it all. */
  lemma ShortfallShows(row: Row, run: Observation, later: seq<Observation>, p: Profile, prior: nat, now: real)
    requires Ordered(row.samples, run.now) && FloorOf(row) >= Margin(run.peak)
    requires row.floor.Some? ==> row.floor.value.at <= run.now
    requires Follow(later, run.now) && now >= LastTime(later, run.now) && Completes(later) < 3
    requires PredictFrom(RowFrom(row, later), p, prior, now).kb < Margin(run.peak)
    ensures row.floor.Some? && row.samples != [] && Margin(run.peak) > GIB / 2
    ensures var newest := Newest(row);
      && newest.at > row.floor.value.at && run.now - newest.at < MAX_AGE && Margin(newest.peak) < Margin(run.peak)
  {
    var last := RowFrom(row, later);
    FloorFrom(row, run.now, later);
    RetiredBy(last, p, prior, now, run.peak);
    ShowsAt(row, run, later, now, last.floor.value.at);
    SmallerOne(Fresh(last.samples, now), run.peak, Newest(row));
  }

  lemma RowBefore(before: seq<Observation>, t: real, run: Observation)
    requires Follow(before + [run], t)
    ensures Ordered(RowAfter(before).samples, run.now)
    ensures RowAfter(before).floor.Some? ==> RowAfter(before).floor.value.at <= run.now
  {
    FollowLast(before, run, t);
    Dated(before, t);
    OrderedUntil(RowAfter(before).samples, LastTime(before, t), run.now);
  }

  /** A partial run leaves the samples alone, and a floor no lower than its padded peak. */
  lemma NextOfPartial(row: Row, run: Observation)
    requires !run.complete && (row.floor.Some? ==> row.floor.value.at <= run.now)
    ensures Next(row, run).samples == row.samples && FloorOf(Next(row, run)) >= Margin(run.peak)
    ensures Next(row, run).floor.Some? ==> Next(row, run).floor.value.at <= run.now
    ensures Margin(run.peak) > FloorOf(row) ==> Next(row, run).floor == Some(Floor(Margin(run.peak), run.now))
    ensures Margin(run.peak) <= FloorOf(row) ==> Next(row, run).floor == row.floor
  {
  }

  lemma DropsOnlyExposed(row: Row, run: Observation, later: seq<Observation>, p: Profile, prior: nat, now: real)
    requires Ordered(row.samples, run.now) && !run.complete
    requires row.floor.Some? ==> row.floor.value.at <= run.now
    requires Follow(later, run.now) && now >= LastTime(later, run.now) && Completes(later) < 3
    requires PredictFrom(Then(row, run, later), p, prior, now).kb < Margin(run.peak)
    ensures Exposed(row, run.peak, run.now)
  {
    NextOfPartial(row, run);
    ShortfallShows(Next(row, run), run, later, p, prior, now);
    EarlierAt(row.samples, run.now, |row.samples| - 1);
  }

  lemma BreaksOnlyExposed(before: seq<Observation>, t: real, run: Observation, later: seq<Observation>,
                          p: Profile, prior: nat, now: real)
    requires Follow(before + [run], t) && !run.complete && Breaks(before, run, later, p, prior, now)
    ensures Exposed(RowAfter(before), run.peak, run.now)
  {
    RowBefore(before, t, run);
    Appended(before, run, later);
    DropsOnlyExposed(RowAfter(before), run, later, p, prior, now);
  }

  // ---------------------------------------------------------------- and conversely

  function Small(run: Observation, now: real): Observation { Observation(run.profile, 0, true, now) }

  /** Two complete runs while the newest sample is valid, the second just as it lapses. */
  function Later(run: Observation, newest: Sample): seq<Observation> {
    var end := newest.at + MAX_AGE;
    [Small(run, (run.now + end) / 2.0), Small(run, end)]
  }

  lemma TwoFollow(a: Observation, b: Observation, t: real)
    requires t < a.now < b.now && a.complete && b.complete
    ensures Follow([a, b], t) && LastTime([a, b], t) == b.now && Completes([a, b]) == 2
  {
    assert [a, b][..1] == [a] && [a][..0] == [];
    assert Completes([a]) == 1;
  }

  lemma TwoObserved(row: Row, a: Observation, b: Observation)
    ensures RowFrom(row, [a, b])
            == Observed(Observed(row, a.profile, a.peak, a.complete, a.now), b.profile, b.peak, b.complete, b.now)
  {
    assert [a, b][..1] == [a] && [a][..0] == [];
    assert RowFrom(row, [a]) == Observed(row, a.profile, a.peak, a.complete, a.now);
  }

  lemma {:induction false} LapsedStay(samples: seq<Sample>, now: real, end: real)
    requires Fresh(samples, end) == []
    ensures Fresh(Fresh(samples, now), end) == []
  {
    if samples != [] {
      var n := |samples| - 1;
      LapsedStay(samples[..n], now, end);
      FreshJoin(Fresh(samples[..n], now), [samples[n]], end);
      FreshOne(samples[n], end);
      assert Fresh(samples[..n], now) + [] == Fresh(samples[..n], now);
    }
  }

  /** Lapsed samples in front make no difference to what is valid of the twenty newest. */
  lemma RecentKeeps(lapsed: seq<Sample>, kept: seq<Sample>, end: real)
    requires Fresh(lapsed, end) == [] && |kept| <= MAX_SAMPLES
    ensures Fresh(Recent(lapsed + kept), end) == Fresh(kept, end)
  {
    var all := lapsed + kept;
    var j := if |all| <= MAX_SAMPLES then 0 else |all| - MAX_SAMPLES;
    SuffixOfLapsed(lapsed, j, end);
    assert Recent(all) == lapsed[j..] + kept;
    FreshJoin(lapsed[j..], kept, end);
  }

  lemma SuffixOfLapsed(lapsed: seq<Sample>, j: nat, end: real)
    requires Fresh(lapsed, end) == [] && j <= |lapsed|
    ensures Fresh(lapsed[j..], end) == []
  {
    FreshJoin(lapsed[..j], lapsed[j..], end);
    assert lapsed[..j] + lapsed[j..] == lapsed;
  }

  lemma ThreeFresh(a: Sample, b: Sample, c: Sample, now: real)
    requires Valid(a, now) && Valid(b, now)
    ensures Fresh([a, b], now) == [a, b]
    ensures Valid(c, now) ==> Fresh([a, b, c], now) == [a, b, c]
  {
    FreshOne(a, now);
    FreshOne(b, now);
    FreshOne(c, now);
    FreshJoin([a], [b], now);
    assert [a] + [b] == [a, b];
    FreshJoin([a, b], [c], now);
    assert [a, b] + [c] == [a, b, c];
  }

  /** Of ordered samples and two more, as the newest of the ordered ones lapses, only those three are left. */
  lemma TwoRecorded(front: seq<Sample>, newest: Sample, t: real, one: Sample, two: Sample)
    requires Ordered(front + [newest], t) && t < one.at < two.at && two.at == newest.at + MAX_AGE
    ensures var first := Recent(Fresh(front + [newest], one.at) + [one]);
      Fresh(Recent(Fresh(first, two.at) + [two]), two.at) == [newest, one, two]
  {
    var end := two.at;
    assert (front + [newest])[..|front|] == front;
    if front != [] {
      NoneFresh(front, front[|front| - 1].at, end);
    }
    LapsedStay(front, one.at, end);
    FreshJoin(front, [newest], one.at);
    FreshOne(newest, one.at);
    var lapsed := Fresh(front, one.at);
    assert lapsed + [newest] + [one] == lapsed + [newest, one];
    RecentKeeps(lapsed, [newest, one], end);
    ThreeFresh(newest, one, two, end);
    assert [newest, one] + [two] == [newest, one, two];
  }

  lemma MaxOneMore(samples: seq<Sample>, s: Sample)
    ensures MaxPeak(samples + [s]) == Max(MaxPeak(samples), s.peak)
  {
    assert (samples + [s])[..|samples|] == samples;
  }

  lemma ThreeLater(a: Sample, b: Sample, c: Sample, at: real)
    requires a.at > at && b.at > at && c.at > at && b.peak == 0 && c.peak == 0
    ensures LaterSamples([a, b, c], at) == 3 && MaxPeak([a, b, c]) == a.peak
  {
    LaterOneMore([], a, at);
    LaterOneMore([a], b, at);
    LaterOneMore([a, b], c, at);
    MaxOneMore([], a);
    MaxOneMore([a], b);
    MaxOneMore([a, b], c);
    assert [] + [a] == [a] && [a] + [b] == [a, b] && [a, b] + [c] == [a, b, c];
  }

  /** Three valid samples later than the floor retire it, and the largest of them decides. */
  lemma RetiredPrediction(row: Row, p: Profile, now: real, a: Sample, b: Sample, c: Sample)
    requires Fresh(row.samples, now) == [a, b, c] && row.floor.Some? && b.peak == 0 && c.peak == 0
    requires a.at > row.floor.value.at && b.at > row.floor.value.at && c.at > row.floor.value.at
    ensures PredictFrom(row, p, 0, now).kb == Max(GIB / 2, Margin(a.peak))
  {
    ThreeLater(a, b, c, row.floor.value.at);
  }

  /** What the two later runs leave of a record. */
  lemma TwoRecordedRow(row: Row, front: seq<Sample>, newest: Sample, t: real, a: Observation, b: Observation)
    requires row.samples == front + [newest] && Ordered(row.samples, t) && a.complete && b.complete
    requires t < a.now < b.now && b.now == newest.at + MAX_AGE
    ensures RowFrom(row, [a, b]).floor == row.floor
    ensures Fresh(RowFrom(row, [a, b]).samples, b.now) == [newest, NewSample(a), NewSample(b)]
  {
    TwoObserved(row, a, b);
    TwoRecorded(front, newest, t, NewSample(a), NewSample(b));
  }

  /** And what is predicted from it. */
  lemma TwoRetire(row: Row, front: seq<Sample>, newest: Sample, t: real, p: Profile, a: Observation, b: Observation)
    requires row.samples == front + [newest] && Ordered(row.samples, t) && a.complete && b.complete
    requires newest.at <= t < a.now < b.now && b.now == newest.at + MAX_AGE && a.peak == 0 && b.peak == 0
    requires row.floor.Some? && newest.at > row.floor.value.at
    ensures PredictFrom(RowFrom(row, [a, b]), p, 0, b.now).kb == Max(GIB / 2, Margin(newest.peak))
  {
    TwoRecordedRow(row, front, newest, t, a, b);
    RetiredPrediction(RowFrom(row, [a, b]), p, b.now, newest, NewSample(a), NewSample(b));
  }

  lemma LaterFollows(run: Observation, newest: Sample)
    requires 0.0 <= run.now - newest.at < MAX_AGE
    ensures var later := Later(run, newest);
      Follow(later, run.now) && LastTime(later, run.now) == newest.at + MAX_AGE && Completes(later) == 2
  {
    var later := Later(run, newest);
    TwoFollow(later[0], later[1], run.now);
  }

  lemma LaterRetires(row: Row, front: seq<Sample>, newest: Sample, run: Observation)
    requires row.samples == front + [newest] && Ordered(row.samples, run.now)
    requires 0.0 <= run.now - newest.at < MAX_AGE && row.floor.Some? && newest.at > row.floor.value.at
    ensures PredictFrom(RowFrom(row, Later(run, newest)), run.profile, 0, newest.at + MAX_AGE).kb
            == Max(GIB / 2, Margin(newest.peak))
  {
    var later := Later(run, newest);
    TwoRetire(row, front, newest, run.now, run.profile, later[0], later[1]);
    assert later == [later[0], later[1]];
  }

  lemma LastApart(samples: seq<Sample>)
    requires samples != []
    ensures samples == samples[..|samples| - 1] + [samples[|samples| - 1]]
  {
  }

  lemma NextAfter(row: Row, run: Observation)
    requires !run.complete && Exposed(row, run.peak, run.now)
    ensures Next(row, run).samples == row.samples && Next(row, run).floor == row.floor
    ensures run.now - Newest(row).at < MAX_AGE && Newest(row).at > row.floor.value.at
    ensures Max(GIB / 2, Margin(Newest(row).peak)) < Margin(run.peak)
  {
  }

  lemma NewestIsLast(row: Row, t: real)
    requires row.samples != [] && Ordered(row.samples, t)
    ensures Newest(row).at <= t && row.samples == row.samples[..|row.samples| - 1] + [Newest(row)]
  {
    LastApart(row.samples);
  }

  lemma ExposedDrops(row: Row, run: Observation, front: seq<Sample>, newest: Sample)
    requires Ordered(row.samples, run.now) && row.samples == front + [newest] && newest.at <= run.now
    requires !run.complete && Exposed(row, run.peak, run.now) && newest == Newest(row)
    ensures PredictFrom(Then(row, run, Later(run, newest)), run.profile, 0, newest.at + MAX_AGE).kb
            < Margin(run.peak)
  {
    NextAfter(row, run);
    LaterRetires(Next(row, run), front, newest, run);
  }

  /** A continuation after which the prediction falls short of the run's padded peak. */
  ghost predicate Falls(row: Row, run: Observation, later: seq<Observation>, p: Profile, prior: nat, now: real) {
    && Follow(later, run.now) && now >= LastTime(later, run.now) && Completes(later) < 3
    && PredictFrom(Then(row, run, later), p, prior, now).kb < Margin(run.peak)
  }

  lemma BreaksSo(before: seq<Observation>, run: Observation, later: seq<Observation>, p: Profile, prior: nat, now: real)
    ensures Breaks(before, run, later, p, prior, now) <==> Falls(RowAfter(before), run, later, p, prior, now)
  {
    Appended(before, run, later);
  }

  lemma ExposedFalls(row: Row, run: Observation)
    requires Ordered(row.samples, run.now) && !run.complete && Exposed(row, run.peak, run.now)
    ensures Falls(row, run, Later(run, Newest(row)), run.profile, 0, Newest(row).at + MAX_AGE)
  {
    NewestIsLast(row, run.now);
    ExposedDrops(row, run, row.samples[..|row.samples| - 1], Newest(row));
    LaterFollows(run, Newest(row));
  }

  lemma ExposedBreaks(before: seq<Observation>, t: real, run: Observation)
    requires Follow(before + [run], t) && !run.complete && Exposed(RowAfter(before), run.peak, run.now)
    ensures Breaks(before, run, Later(run, Newest(RowAfter(before))), run.profile, 0,
                   Newest(RowAfter(before)).at + MAX_AGE)
  {
    RowBefore(before, t, run);
    ExposedFalls(RowAfter(before), run);
    BreaksSo(before, run, Later(run, Newest(RowAfter(before))), run.profile, 0, Newest(RowAfter(before)).at + MAX_AGE);
  }

  /** Exactly when a partial peak stays a floor until three later complete runs. The promise
      can be broken, by some continuation with fewer than three complete runs, if and only if
      the run is exposed when it is recorded: a floor at least as high is left as it is, and a
      smaller complete run, not yet lapsed, already counts against that floor. */
  lemma PromiseExactly(before: seq<Observation>, t: real, run: Observation)
    requires Follow(before + [run], t) && !run.complete
    ensures (exists later, p, prior: nat, now :: Breaks(before, run, later, p, prior, now))
            <==> Exposed(RowAfter(before), run.peak, run.now)
  {
    if later, p, prior: nat, now :| Breaks(before, run, later, p, prior, now) {
      BreaksOnlyExposed(before, t, run, later, p, prior, now);
    }
    if Exposed(RowAfter(before), run.peak, run.now) {
      ExposedBreaks(before, t, run);
    }
  }

  /** In particular it is kept by a run that raises the floor, and by any run if no complete
      run on record came after the floor. */
  lemma RaisedIsKept(before: seq<Observation>, t: real, run: Observation, later: seq<Observation>,
                     p: Profile, prior: nat, now: real)
    requires Follow(before + [run], t) && !run.complete
    requires var row := RowAfter(before);
      Margin(run.peak) > FloorOf(row) || (row.floor.Some? && LaterSamples(row.samples, row.floor.value.at) == 0)
    ensures !Breaks(before, run, later, p, prior, now)
  {
    if Breaks(before, run, later, p, prior, now) {
      BreaksOnlyExposed(before, t, run, later, p, prior, now);
    }
  }

  // ------------------------------------------------------------- a broken promise

  lemma NextRow(before: seq<Observation>, o: Observation)
    ensures RowAfter(before + [o]) == Next(RowAfter(before), o)
  {
    assert (before + [o])[..|before|] == before;
  }

  /** A floor of ten GiB, retired by three runs of next to nothing, then a partial run of nine GiB. */
  function Runs(p: Profile): seq<Observation> {
    [Observation(p, 10 * GIB, false, 0.0)]
    + [Observation(p, 0, true, 1.0)] + [Observation(p, 0, true, 2.0)] + [Observation(p, 0, true, 3.0)]
  }

  lemma RunsRow(p: Profile)
    ensures RowAfter(Runs(p)) == Row(p.family, p.components,
                                     [Sample(0, 1.0, p.bytes, p.files), Sample(0, 2.0, p.bytes, p.files),
                                      Sample(0, 3.0, p.bytes, p.files)], Some(Floor(Margin(10 * GIB), 0.0)))
  {
    var big := Observation(p, 10 * GIB, false, 0.0);
    var a, b, c := Sample(0, 1.0, p.bytes, p.files), Sample(0, 2.0, p.bytes, p.files), Sample(0, 3.0, p.bytes, p.files);
    var o, q, r := Observation(p, 0, true, 1.0), Observation(p, 0, true, 2.0), Observation(p, 0, true, 3.0);
    assert [big] == [] + [big];
    NextRow([], big);
    NextRow([big], o);
    assert [] + [a] == [a];
    NextRow([big] + [o], q);
    FreshOne(a, 2.0);
    assert [a] + [b] == [a, b];
    NextRow([big] + [o] + [q], r);
    ThreeFresh(a, b, c, 3.0);
    assert [a, b] + [c] == [a, b, c];
  }

  /** No run at all after the nine GiB, and yet the prediction one second later is half a GiB. */
  lemma ForgottenAtOnce(p: Profile)
    ensures Breaks(Runs(p), Observation(p, 9 * GIB, false, 4.0), [], p, 0, 5.0)
    ensures PredictFrom(RowAfter(Runs(p) + [Observation(p, 9 * GIB, false, 4.0)] + []), p, 0, 5.0).kb == GIB / 2
  {
    var run := Observation(p, 9 * GIB, false, 4.0);
    var a, b, c := Sample(0, 1.0, p.bytes, p.files), Sample(0, 2.0, p.bytes, p.files), Sample(0, 3.0, p.bytes, p.files);
    RunsRow(p);
    Appended(Runs(p), run, []);
    var row := Observed(RowAfter(Runs(p)), p, 9 * GIB, false, 4.0);
    ThreeFresh(a, b, c, 5.0);
    RetiredPrediction(row, p, 5.0, a, b, c);
  }
}
