/** The observation certificate said of the record alone: of the times of the samples, of what
    they found, and of what is still owed (libexec/job_observation.py). */
module Evidence {
  import opened Common
  import opened Observation
  import opened Certificate

  // ---------------------------------------------------------------- what counts

  /** A sample counts that is newer than every sample before it; times begin above minus one. */
  predicate Counts(h: seq<Step>, i: nat)
    requires i < |h|
  {
    h[i].sample.at > -1.0 && forall k :: 0 <= k < i ==> h[k].sample.at < h[i].sample.at
  }

  /** The last sample that counts among the first n. */
  predicate Newest(h: seq<Step>, n: nat, j: nat)
    requires n <= |h|
  {
    j < n && Counts(h, j) && forall k :: j < k < n ==> !Counts(h, k)
  }

  lemma CountsInFront(h: seq<Step>, n: nat, i: nat)
    requires i < n <= |h|
    ensures Counts(h[..n], i) <==> Counts(h, i)
  {
    assert forall k :: 0 <= k < n ==> h[..n][k] == h[k];
  }

  /** The newest time so far; none while all times are at or below minus one. */
  ghost predicate Latest(h: seq<Step>, last: Option<real>) {
    && (forall k :: 0 <= k < |h| ==> h[k].sample.at <= last.GetOr(-1.0))
    && (last.Some? ==> last.value > -1.0 && exists j: nat :: NewestAt(h, j, last.value))
  }

  predicate NewestAt(h: seq<Step>, j: nat, t: real) { Newest(h, |h|, j) && h[j].sample.at == t }

  lemma LastOfStep(st: State, s: Sample, current: map<Pid, Start>)
    ensures Reconciled(st, s, current).last == if Stale(st, s) then st.last else Some(s.at)
    ensures Reconciled(st, s, current).began == st.began
  {
  }

  lemma CountsByLast(h: seq<Step>, last: Option<real>)
    requires h != [] && Latest(h[..|h| - 1], last)
    ensures Counts(h, |h| - 1) <==> h[|h| - 1].sample.at > last.GetOr(-1.0)
  {
    var n := |h| - 1;
    assert forall k :: 0 <= k < n ==> h[..n][k] == h[k];
    if last.Some? {
      var j: nat :| NewestAt(h[..n], j, last.value);
    }
  }

  lemma NewestStays(h: seq<Step>, j: nat)
    requires h != [] && !Counts(h, |h| - 1) && Newest(h[..|h| - 1], |h| - 1, j)
    ensures Newest(h, |h|, j)
  {
    var n := |h| - 1;
    forall k: nat | k < n ensures Counts(h[..n], k) <==> Counts(h, k) {
      CountsInFront(h, n, k);
    }
  }

  lemma LatestMore(h: seq<Step>, last: Option<real>)
    requires h != [] && Latest(h[..|h| - 1], last)
    ensures Latest(h, if Counts(h, |h| - 1) then Some(h[|h| - 1].sample.at) else last)
  {
    var n := |h| - 1;
    assert forall k :: 0 <= k < n ==> h[..n][k] == h[k];
    CountsByLast(h, last);
    if Counts(h, n) {
      assert NewestAt(h, n, h[n].sample.at);
    } else if last.Some? {
      var j: nat :| NewestAt(h[..n], j, last.value);
      NewestStays(h, j);
      assert NewestAt(h, j, last.value);
    }
  }

  lemma {:induction false} LastIsLatest(began: Option<real>, h: seq<Step>)
    ensures Latest(h, After(began, h).last) && After(began, h).began == began
  {
    if h != [] {
      var n := |h| - 1;
      LastIsLatest(began, h[..n]);
      CountsByLast(h, After(began, h[..n]).last);
      LatestMore(h, After(began, h[..n]).last);
      LastOfStep(After(began, h[..n]), h[n].sample, h[n].current);
    }
  }

  /** A sample is taken into account exactly when it counts. */
  lemma AcceptedExactly(began: Option<real>, h: seq<Step>, i: nat)
    requires i < |h|
    ensures Accepted(began, h, i) <==> Counts(h, i)
  {
    LastIsLatest(began, h[..i]);
    assert h[..i + 1][..i] == h[..i] && h[..i + 1][i] == h[i];
    CountsByLast(h[..i + 1], After(began, h[..i]).last);
    CountsInFront(h, i + 1, i);
  }

  // ------------------------------------------------------------------- the gaps

  /** More than five seconds since the last sample that counts, or, before there is one, since
      the run began. */
  ghost predicate Interrupted(began: Option<real>, h: seq<Step>, i: nat)
    requires i < |h|
  {
    || (exists j: nat :: Newest(h, i, j) && h[i].sample.at - h[j].sample.at > 5.0)
    || (began.Some? && (forall j: nat :: j < i ==> !Counts(h, j)) && h[i].sample.at - began.value > 5.0)
  }

  lemma NewestInFront(h: seq<Step>, i: nat, j: nat)
    requires i <= |h|
    ensures Newest(h[..i], i, j) <==> Newest(h, i, j)
  {
    forall k: nat | k < i ensures Counts(h[..i], k) <==> Counts(h, k) {
      CountsInFront(h, i, k);
    }
  }

  lemma GapExactly(began: Option<real>, h: seq<Step>, i: nat)
    requires i < |h|
    ensures Gap(After(began, h[..i]), h[i].sample) > 5.0 <==> Interrupted(began, h, i)
  {
    var last := After(began, h[..i]).last;
    LastIsLatest(began, h[..i]);
    forall j: nat | j < i ensures Counts(h[..i], j) <==> Counts(h, j) {
      CountsInFront(h, i, j);
    }
    if last.Some? {
      var j: nat :| NewestAt(h[..i], j, last.value);
      NewestInFront(h, i, j);
      forall k: nat | Newest(h, i, k) ensures k == j {
      }
    }
  }

  // ----------------------------------------------------------------- obligations

  /** Measured: a complete sample found this very process and its footprint. */
  predicate Measures(s: Sample, p: Pid, start: Start) {
    s.complete && p in s.identities && s.identities[p] == start && p in s.footprints
  }

  /** Owed before, or born within this sample. */
  predicate Enters(pending: map<Pid, Start>, s: Sample, p: Pid, start: Start) {
    if p in s.births then s.births[p] == start else p in pending && pending[p] == start
  }

  /** An obligation is lost: its pid was born again as another process, or it was not measured
      and is not there any more. */
  ghost predicate Loses(pending: map<Pid, Start>, s: Sample, current: map<Pid, Start>, p: Pid) {
    || (p in pending && p in s.births && s.births[p] != pending[p])
    || exists start :: Enters(pending, s, p, start) && !Measures(s, p, start)
                       && !(p in current && current[p] == start)
  }

  lemma LostExactly(pending: map<Pid, Start>, s: Sample, current: map<Pid, Start>, p: Pid)
    ensures p in Overwritten(pending, s.births) || p in Lost(pending + s.births, s, current)
            <==> Loses(pending, s, current, p)
  {
    var entered := pending + s.births;
    if p in Lost(entered, s, current) {
      assert Enters(pending, s, p, entered[p]) && !Measures(s, p, entered[p]);
    }
    if start :| Enters(pending, s, p, start) && !Measures(s, p, start) && !(p in current && current[p] == start) {
      assert entered[p] == start && !Settles(s, p, start);
    }
  }

  lemma LossExactly(pending: map<Pid, Start>, s: Sample, current: map<Pid, Start>)
    ensures Settlement(pending, s, current).failed > 0 <==> exists p :: Loses(pending, s, current, p)
  {
    var over, lost := Overwritten(pending, s.births), Lost(pending + s.births, s, current);
    forall p ensures p in over || p in lost <==> Loses(pending, s, current, p) {
      LostExactly(pending, s, current, p);
    }
    if over != {} {
      assert Pick(over) in over;
    } else if lost != {} {
      assert Pick(lost) in lost;
    }
  }

  /** What is owed after a sample: what is there, and was owed and not measured, or not found. */
  lemma OwedExactly(pending: map<Pid, Start>, s: Sample, current: map<Pid, Start>, p: Pid, start: Start)
    ensures p in Settlement(pending, s, current).pending && Settlement(pending, s, current).pending[p] == start
            <==> && p in current && current[p] == start
                 && ((Enters(pending, s, p, start) && !Measures(s, p, start))
                     || !(p in s.identities && s.identities[p] == start))
  {
    var entered := pending + s.births;
    var kept := entered - (Settled(entered, s) + Lost(entered, s, current));
    DiscoveriesAreNew(entered, s, current);
    assert p in kept <==> p in entered && !Settles(s, p, entered[p]) && Lookup(current, p) == Some(entered[p]);
    assert p in Discovered(kept, s, current)
      <==> p in current && Lookup(s.identities, p) != Some(current[p]) && Lookup(kept, p) != Some(current[p]);
  }

  // ------------------------------------------------------------- the certificate

  /** What rules a certificate out: an interruption, a sample that is incomplete for another
      reason than births alone, or a lost obligation. */
  ghost predicate Spoils(began: Option<real>, h: seq<Step>, i: nat)
    requires i < |h|
  {
    var s := h[i].sample;
    || Interrupted(began, h, i)
    || (!s.complete && (s.births == map[] || s.missing != 0 || s.fault != 0))
    || exists p :: Loses(After(began, h[..i]).pending, s, h[i].current, p)
  }

  lemma PoisonIsSpoiling(began: Option<real>, h: seq<Step>, i: nat)
    requires i < |h|
    ensures Poisons(After(began, h[..i]), Counted(began, h, i)) <==> Spoils(began, h, i)
  {
    GapExactly(began, h, i);
    LossExactly(After(began, h[..i]).pending, h[i].sample, h[i].current);
  }

  lemma SpoilsInFront(began: Option<real>, h: seq<Step>, n: nat, i: nat)
    requires i < n <= |h|
    ensures Spoils(began, h[..n], i) <==> Spoils(began, h, i)
  {
    PoisonIsSpoiling(began, h[..n], i);
    PoisonIsSpoiling(began, h, i);
    assert h[..n][..i] == h[..i] && h[..n][i] == h[i];
  }

  /** The evidence is incomplete for good exactly when a sample that counts spoils it. */
  lemma {:induction false} IncompleteExactly(began: Option<real>, h: seq<Step>)
    ensures After(began, h).incomplete <==> exists i: nat :: i < |h| && Counts(h, i) && Spoils(began, h, i)
  {
    if h != [] {
      var n := |h| - 1;
      IncompleteExactly(began, h[..n]);
      AcceptedExactly(began, h, n);
      forall i: nat | i < n
        ensures (Counts(h[..n], i) <==> Counts(h, i)) && (Spoils(began, h[..n], i) <==> Spoils(began, h, i))
      {
        CountsInFront(h, n, i);
        SpoilsInFront(began, h, n, i);
      }
      if Accepted(began, h, n) {
        ReconciledFields(After(began, h[..n]), h[n].sample, h[n].current);
        PoisonIsSpoiling(began, h, n);
      }
    }
  }

  /** A complete sample that counts. */
  predicate Good(h: seq<Step>, i: nat)
    requires i < |h|
  {
    Counts(h, i) && h[i].sample.complete
  }

  ghost predicate OneGood(h: seq<Step>) { exists i: nat :: i < |h| && Good(h, i) }

  ghost predicate TwoGood(h: seq<Step>) { exists i: nat, j: nat :: i < j < |h| && Good(h, i) && Good(h, j) }

  lemma GoodMore(h: seq<Step>)
    requires h != []
    ensures var front, last := h[..|h| - 1], Good(h, |h| - 1);
      (OneGood(h) <==> OneGood(front) || last) && (TwoGood(h) <==> TwoGood(front) || (OneGood(front) && last))
  {
    var n := |h| - 1;
    forall i: nat | i < n ensures Good(h[..n], i) <==> Good(h, i) {
      CountsInFront(h, n, i);
    }
    if OneGood(h[..n]) {
      var i: nat :| i < n && Good(h[..n], i);
      assert Good(h, i);
      assert Good(h, n) ==> TwoGood(h);
    }
    if TwoGood(h[..n]) {
      var i: nat, j: nat :| i < j < n && Good(h[..n], i) && Good(h[..n], j);
      assert Good(h, i) && Good(h, j);
    }
  }

  lemma {:induction false} GoodExactly(began: Option<real>, h: seq<Step>)
    requires !After(began, h).incomplete
    ensures (After(began, h).samples >= 1 <==> OneGood(h)) && (After(began, h).samples >= 2 <==> TwoGood(h))
  {
    if h != [] {
      var n := |h| - 1;
      AcceptedExactly(began, h, n);
      if Accepted(began, h, n) {
        ReconciledFields(After(began, h[..n]), h[n].sample, h[n].current);
      }
      GoodExactly(began, h[..n]);
      GoodMore(h);
    }
  }

  /** The certificate, said of the record alone. It is given exactly when two complete samples
      count; no sample that counts was incomplete but for births, lost an obligation, or came
      more than five seconds after the one before it or the beginning; nothing is owed; and
      the newest sample is at most five seconds old. */
  lemma CertifiedExactly(began: Option<real>, h: seq<Step>, now: real)
    ensures CompleteAt(After(began, h), now) <==>
      && TwoGood(h) && (forall i: nat :: i < |h| && Counts(h, i) ==> !Spoils(began, h, i))
      && After(began, h).pending == map[]
      && exists j: nat :: Newest(h, |h|, j) && 0.0 <= now - h[j].sample.at <= 5.0
  {
    StateIsExact(began, h);
    IncompleteExactly(began, h);
    LastIsLatest(began, h);
    if !After(began, h).incomplete {
      GoodExactly(began, h);
    }
    var last := After(began, h).last;
    if last.Some? {
      var j: nat :| NewestAt(h, j, last.value);
      forall k: nat | Newest(h, |h|, k) ensures k == j {
      }
    }
  }

  /** In a certified history samples that count one after the other are at most five seconds
      apart, and the first is within five seconds of the beginning. */
  lemma CertifiedIsUnbroken(began: Option<real>, h: seq<Step>, now: real)
    requires CompleteAt(After(began, h), now)
    ensures forall i: nat, j: nat :: i < j < |h| && Counts(h, j) && Newest(h, j, i) ==>
              h[j].sample.at - h[i].sample.at <= 5.0
    ensures forall j: nat :: began.Some? && j < |h| && Counts(h, j) && (forall k: nat :: k < j ==> !Counts(h, k)) ==>
              h[j].sample.at - began.value <= 5.0
  {
    CertifiedExactly(began, h, now);
    forall j: nat | j < |h| && Counts(h, j) ensures !Interrupted(began, h, j) {
      assert !Spoils(began, h, j);
    }
  }

  // ----------------------------------------------------------------------- the peak

  /** The peak on record is the largest total of a sample that counts, or zero. */
  lemma {:induction false} PeakIsLargest(began: Option<real>, h: seq<Step>)
    ensures Largest(h, After(began, h).peakKb)
  {
    if h != [] {
      var n := |h| - 1;
      PeakIsLargest(began, h[..n]);
      AcceptedExactly(began, h, n);
      PeakOfStep(After(began, h[..n]), h[n].sample, h[n].current);
      LargestMore(h, After(began, h[..n]).peakKb, After(began, h).peakKb);
    }
  }

  /** The largest total of a sample that counts, or zero. */
  ghost predicate Largest(h: seq<Step>, kb: int) {
    && kb >= 0 && (forall i: nat :: i < |h| && Counts(h, i) ==> h[i].sample.peakKb <= kb)
    && (kb > 0 ==> exists i: nat :: i < |h| && Counts(h, i) && h[i].sample.peakKb == kb)
  }

  lemma LargestMore(h: seq<Step>, before: int, after: int)
    requires h != [] && Largest(h[..|h| - 1], before)
    requires after == if Counts(h, |h| - 1) then Max(before, h[|h| - 1].sample.peakKb) else before
    ensures Largest(h, after)
  {
    var n := |h| - 1;
    forall i: nat | i < n ensures (Counts(h[..n], i) <==> Counts(h, i)) && h[..n][i] == h[i] {
      CountsInFront(h, n, i);
    }
    if after > 0 && after == before {
      var i: nat :| i < n && Counts(h[..n], i) && h[..n][i].sample.peakKb == before;
      assert Counts(h, i);
    }
  }

  lemma PeakOfStep(st: State, s: Sample, current: map<Pid, Start>)
    ensures Reconciled(st, s, current).peakKb == if Stale(st, s) then st.peakKb else Max(st.peakKb, s.peakKb)
  {
  }

  // ------------------------------------------------------------------- the totals

  /** How many samples that count were interrupted before. */
  ghost function Interruptions(began: Option<real>, h: seq<Step>): nat {
    if h == [] then 0
    else
      var n := |h| - 1;
      Interruptions(began, h[..n]) + if Counts(h, n) && Interrupted(began, h, n) then 1 else 0
  }

  /** A sum over the samples that count. */
  function OverCounted(h: seq<Step>, f: Sample -> nat): nat {
    if h == [] then 0
    else
      var n := |h| - 1;
      OverCounted(h[..n], f) + if Counts(h, n) then f(h[n].sample) else 0
  }

  lemma TotalsOfStep(st: State, s: Sample, current: map<Pid, Start>)
    requires !Stale(st, s)
    ensures var next, failed := Reconciled(st, s, current), Settlement(st.pending, s, current).failed;
      && next.missing == st.missing + s.missing + failed && next.faults == st.faults + s.fault
      && next.reasons.gap == st.reasons.gap + s.reasons.gap + (if Gap(st, s) > 5.0 then 1 else 0)
      && next.reasons.refresh == st.reasons.refresh + (if failed == 0 then s.reasons.refresh else failed)
      && next.usage == s.usage
  {
  }

  /** The counters on record: each interruption is one gap, faults add up, and what is missing
      was missed by a sample or lost before it could be measured. */
  lemma {:induction false} TotalsExactly(began: Option<real>, h: seq<Step>)
    requires WellFormedSteps(h) && forall i :: 0 <= i < |h| ==> h[i].sample.reasons.gap == 0
    ensures var st := After(began, h);
      && st.reasons.gap == Interruptions(began, h)
      && st.faults == OverCounted(h, (s: Sample) => s.fault)
      && st.missing == OverCounted(h, (s: Sample) => s.missing) + st.reasons.refresh
  {
    if h != [] {
      var n := |h| - 1;
      assert forall i :: 0 <= i < n ==> h[..n][i] == h[i];
      TotalsExactly(began, h[..n]);
      AcceptedExactly(began, h, n);
      GapExactly(began, h, n);
      if Accepted(began, h, n) {
        TotalsOfStep(After(began, h[..n]), h[n].sample, h[n].current);
      }
    }
  }
}
