/** The reservation pass before each decision (Scheduler.admissible in libexec/scheduler.py):
    every waiter's turn looks at the running jobs anew, with clocks of its own. */
module Passes {
  import opened Common
  import opened Jobs
  import Admission
  import Reservation
  import Amounts

  datatype Clock = Clock(monotonic: real, wall: real)

  /** What all waiters are decided against while one supervisor holds the lock, and the clocks
      that the pass of each waiter reads. */
  datatype Host = Host(policy: Admission.Policy, sample: Admission.Sample, controller: Admission.Controller,
                       clock: real, clocks: nat -> Clock)

  function RequestOf(job: Job): Admission.Request { Admission.Request(job.allowance.memoryKb, job.resource) }

  ghost predicate Allows(jobs: seq<Job>, h: Host, job: Job) {
    Admission.Verdict(h.policy, h.sample, h.controller, h.clock, jobs, RequestOf(job)).allow
  }

  function ReadingOf(h: Host, clock: Clock, measured: int): Reservation.Reading {
    var s := h.sample;
    Reservation.Reading(s.footprints, s.fault == Some(true), s.busy, s.monotonic.GetOr(0.0), measured,
                        h.policy.mode == Admission.Adaptive, clock.monotonic, clock.wall)
  }

  /** What one running job is seen to use. */
  ghost function Look(job: Job, h: Host, clock: Clock): Reservation.Reading {
    ReadingOf(h, clock, Measured(h.sample.footprints, job.allowance.footprint.Keys))
  }

  ghost function Renewed(job: Job, h: Host, clock: Clock): Job {
    if job.status == Running
    then job.(allowance := Reservation.Revisited(job.allowance, Look(job, h, clock)))
    else job
  }

  ghost function OnePass(jobs: seq<Job>, h: Host, clock: Clock): seq<Job> {
    if jobs == [] then []
    else OnePass(jobs[..|jobs| - 1], h, clock) + [Renewed(jobs[|jobs| - 1], h, clock)]
  }

  /** The registry after the passes of the first n waiters. */
  ghost function Passed(jobs: seq<Job>, h: Host, n: nat): seq<Job> {
    if n == 0 then jobs else OnePass(Passed(jobs, h, n - 1), h, h.clocks(n - 1))
  }

  /** One pass over the running jobs, each record updated in place. */
  method Pass(jobs: seq<Job>, h: Host, clock: Clock) returns (after: seq<Job>)
    ensures after == OnePass(jobs, h, clock)
  {
    after := [];
    for i := 0 to |jobs|
      invariant after == OnePass(jobs[..i], h, clock)
    {
      assert jobs[..i + 1][..i] == jobs[..i];
      var job := jobs[i];
      if job.status == Running {
        var measured := Measure(h.sample.footprints, job.allowance.footprint.Keys);
        var record := new Reservation.JobRecord(job.allowance);
        var kb := record.Reservation(ReadingOf(h, clock, measured));
        job := job.(allowance := record.View().(reservationKb := Some(kb)));
      }
      after := after + [job];
    }
    assert jobs[..|jobs|] == jobs;
  }

  /** What a pass goes by: the job's processes in the sample, which is not used if it failed or
      misses one of them; its age by the clock of this pass; and the mode. */
  lemma LookExactly(job: Job, h: Host, clock: Clock)
    ensures var r, a, s := Look(job, h, clock), job.allowance, h.sample;
      && (Amounts.Usable(a, r) <==>
            && a.elastic && (!a.orphaned || a.recoveryActive) && |a.footprint| > 0 && s.fault != Some(true)
            && forall p :: p in a.footprint ==> p in s.footprints)
      && (s.monotonic.Some? ==>
            (Amounts.Timely(r) <==> s.monotonic.value <= clock.monotonic <= s.monotonic.value + 2.0))
      && (s.monotonic.None? ==> (Amounts.Timely(r) <==> 0.0 <= clock.monotonic <= 2.0))
      && r.measured == Sum(a.footprint.Keys, p => if p in s.footprints then s.footprints[p] else 0)
      && (r.adaptive <==> h.policy.mode == Admission.Adaptive) && (r.busy <==> s.busy) && r.wall == clock.wall
  {
    assert At(h.sample.footprints) == (p => if p in h.sample.footprints then h.sample.footprints[p] else 0);
  }

  // ------------------------------------------------------------- what a pass keeps

  lemma {:induction false} PassAt(jobs: seq<Job>, h: Host, clock: Clock)
    ensures |OnePass(jobs, h, clock)| == |jobs|
    ensures forall k :: 0 <= k < |jobs| ==> OnePass(jobs, h, clock)[k] == Renewed(jobs[k], h, clock)
  {
    if jobs != [] {
      PassAt(jobs[..|jobs| - 1], h, clock);
    }
  }

  /** Two entries that any decision treats alike. */
  predicate SameCharge(a: Job, b: Job) {
    && a.status == b.status && a.resource == b.resource && a.allowance.footprint == b.allowance.footprint
    && (a.status == Running ==> a.allowance.Reserve() == b.allowance.Reserve())
  }

  predicate SameCharges(a: seq<Job>, b: seq<Job>) {
    |a| == |b| && forall k :: 0 <= k < |a| ==> SameCharge(a[k], b[k])
  }

  lemma {:induction false} SameSums(s: Admission.Sample, a: seq<Job>, b: seq<Job>)
    requires SameCharges(a, b)
    ensures Admission.Charged(s, a) == Admission.Charged(s, b)
    ensures Admission.Outstanding(s, a) == Admission.Outstanding(s, b)
    ensures FiniteCount(a) == FiniteCount(b)
  {
    if a != [] {
      var n := |a| - 1;
      assert SameCharge(a[n], b[n]);
      SameSums(s, a[..n], b[..n]);
    }
  }

  lemma SameChargeable(s: Admission.Sample, a: seq<Job>, b: seq<Job>)
    requires SameCharges(a, b) && Admission.AllChargeable(s, a)
    ensures Admission.AllChargeable(s, b)
  {
    forall j | j in b && j.status == Running ensures Admission.Chargeable(s, j.allowance) {
      var k :| 0 <= k < |b| && b[k] == j;
      assert SameCharge(a[k], b[k]) && a[k] in a;
    }
  }

  lemma SameVerdict(a: seq<Job>, b: seq<Job>, h: Host, job: Job)
    requires SameCharges(a, b)
    ensures Allows(a, h, job) <==> Allows(b, h, job)
  {
    SameSums(h.sample, a, b);
    if Admission.AllChargeable(h.sample, a) {
      SameChargeable(h.sample, a, b);
    } else if Admission.AllChargeable(h.sample, b) {
      SameChargeable(h.sample, b, a);
    }
    Admission.VerdictAllowsExactly(h.policy, h.sample, h.controller, h.clock, a, RequestOf(job));
    Admission.VerdictAllowsExactly(h.policy, h.sample, h.controller, h.clock, b, RequestOf(job));
  }

  // -------------------------------------------------------- passes that follow on

  /** What the scheduler writes of a running job: a positive request, and no negative amounts. */
  predicate Sane(job: Job) {
    job.allowance.memoryKb > 0 && job.allowance.Reserve() >= 0 && job.allowance.observedPeakKb >= 0
  }

  predicate SaneJobs(jobs: seq<Job>) { forall k :: 0 <= k < |jobs| && jobs[k].status == Running ==> Sane(jobs[k]) }

  /** The sample measures nothing negative and was taken before any of the passes. */
  predicate GoodSample(h: Host, n: nat) {
    && (forall p :: p in h.sample.footprints ==> h.sample.footprints[p] >= 0)
    && (forall k: nat :: k < n ==> h.sample.monotonic.GetOr(0.0) <= h.clocks(k).monotonic)
  }

  /** The clocks do not run backwards from one pass to the next. */
  predicate ClocksAdvance(h: Host, n: nat) {
    forall k: nat :: k + 1 < n ==>
      h.clocks(k).monotonic <= h.clocks(k + 1).monotonic && h.clocks(k).wall <= h.clocks(k + 1).wall
  }

  /** No startup burst ends between two of the first n passes on a sample that is still fresh. */
  ghost predicate NoneAges(jobs: seq<Job>, h: Host, n: nat) {
    forall i, k: nat :: 0 <= i < |jobs| && jobs[i].status == Running && k + 1 < n ==>
      !Reservation.Ages(jobs[i].allowance, Look(jobs[i], h, h.clocks(k)), Look(jobs[i], h, h.clocks(k + 1)))
  }

  lemma MeasuredIsSane(h: Host, n: nat, pids: set<Pid>)
    requires GoodSample(h, n)
    ensures Measured(h.sample.footprints, pids) >= 0
  {
    Admission.SumIsZero(pids, At(h.sample.footprints));
  }

  lemma RenewedIsSane(job: Job, h: Host, n: nat, clock: Clock)
    requires GoodSample(h, n) && (job.status == Running ==> Sane(job))
    ensures var next := Renewed(job, h, clock);
      && (next.status == Running ==> Sane(next)) && next.status == job.status && next.resource == job.resource
      && next.allowance.footprint == job.allowance.footprint
  {
    MeasuredIsSane(h, n, job.allowance.footprint.Keys);
  }

  /** A job looked at twice is charged the second time what it was charged the first. */
  lemma RenewedTwice(job: Job, h: Host, n: nat, first: Clock, second: Clock)
    requires GoodSample(h, n) && (job.status == Running ==> Sane(job))
    requires h.sample.monotonic.GetOr(0.0) <= first.monotonic <= second.monotonic && first.wall <= second.wall
    requires job.status == Running ==> !Reservation.Ages(job.allowance, Look(job, h, first), Look(job, h, second))
    ensures SameCharge(Renewed(job, h, first), Renewed(Renewed(job, h, first), h, second))
  {
    RenewedIsSane(job, h, n, first);
    if job.status == Running {
      MeasuredIsSane(h, n, job.allowance.footprint.Keys);
      Reservation.AllowanceIsStableLater(job.allowance, Look(job, h, first), Look(job, h, second));
    }
  }

  lemma AgesAlike(job: Job, h: Host, clock: Clock, first: Clock, second: Clock)
    requires job.status == Running
    ensures var next := Renewed(job, h, clock);
      Reservation.Ages(next.allowance, Look(next, h, first), Look(next, h, second))
      <==> Reservation.Ages(job.allowance, Look(job, h, first), Look(job, h, second))
  {
  }

  /** What holds of the registry after n passes, seen from the one before them. */
  ghost predicate Follows(jobs: seq<Job>, h: Host, m: nat, after: seq<Job>) {
    && |after| == |jobs| && SaneJobs(after) && NoneAges(after, h, m)
    && forall k :: 0 <= k < |jobs| ==> after[k].status == jobs[k].status
  }

  lemma PassFollows(jobs: seq<Job>, h: Host, m: nat, now: seq<Job>, clock: Clock)
    requires Follows(jobs, h, m, now) && GoodSample(h, m)
    ensures Follows(jobs, h, m, OnePass(now, h, clock))
  {
    var after := OnePass(now, h, clock);
    PassAt(now, h, clock);
    forall k | 0 <= k < |after|
        ensures after[k].status == jobs[k].status && (after[k].status == Running ==> Sane(after[k])) {
      RenewedIsSane(now[k], h, m, clock);
    }
    forall i, k: nat | 0 <= i < |after| && after[i].status == Running && k + 1 < m
      ensures !Reservation.Ages(after[i].allowance, Look(after[i], h, h.clocks(k)),
                                Look(after[i], h, h.clocks(k + 1))) {
      AgesAlike(now[i], h, clock, h.clocks(k), h.clocks(k + 1));
    }
  }

  lemma {:induction false} PassedFollows(jobs: seq<Job>, h: Host, m: nat, n: nat)
    requires SaneJobs(jobs) && GoodSample(h, m) && NoneAges(jobs, h, m)
    ensures Follows(jobs, h, m, Passed(jobs, h, n))
  {
    if n > 0 {
      PassedFollows(jobs, h, m, n - 1);
      PassFollows(jobs, h, m, Passed(jobs, h, n - 1), h.clocks(n - 1));
    }
  }

  lemma ChargesChain(a: seq<Job>, b: seq<Job>, c: seq<Job>)
    requires SameCharges(a, b) && SameCharges(b, c)
    ensures SameCharges(a, c)
  {
    forall k | 0 <= k < |a| ensures SameCharge(a[k], c[k]) {
      assert SameCharge(a[k], b[k]) && SameCharge(b[k], c[k]);
    }
  }

  lemma NextPass(jobs: seq<Job>, h: Host, m: nat, n: nat)
    requires SaneJobs(jobs) && GoodSample(h, m) && ClocksAdvance(h, m) && NoneAges(jobs, h, m) && 0 < n < m
    ensures SameCharges(Passed(jobs, h, n), Passed(jobs, h, n + 1))
  {
    var before := Passed(jobs, h, n - 1);
    var now := Passed(jobs, h, n);
    PassedFollows(jobs, h, m, n - 1);
    PassAt(before, h, h.clocks(n - 1));
    PassAt(now, h, h.clocks(n));
    forall k | 0 <= k < |now| ensures SameCharge(now[k], Passed(jobs, h, n + 1)[k]) {
      RenewedTwice(before[k], h, m, h.clocks(n - 1), h.clocks(n));
    }
  }

  /** All passes of one selection charge every job alike. */
  lemma {:induction false} PassesAgree(jobs: seq<Job>, h: Host, m: nat, n: nat)
    requires SaneJobs(jobs) && GoodSample(h, m) && ClocksAdvance(h, m) && NoneAges(jobs, h, m) && 0 < n <= m
    ensures SameCharges(Passed(jobs, h, 1), Passed(jobs, h, n))
  {
    if n > 1 {
      PassesAgree(jobs, h, m, n - 1);
      NextPass(jobs, h, m, n - 1);
      ChargesChain(Passed(jobs, h, 1), Passed(jobs, h, n - 1), Passed(jobs, h, n));
    }
  }
}
