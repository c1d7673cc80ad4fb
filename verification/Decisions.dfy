/** The admission decision said of the sample, the clocks and the jobs (decide in libexec/admission.py). */
module Decisions {
  import opened Common
  import opened Jobs
  import opened Admission

  // --------------------------------------------------------------------- amounts

  /** What a running job is charged, what the tracked total has of it already, and what it may
      still come to use. */
  ghost function Charge(s: Sample, j: Job): int {
    var reserve := if j.allowance.reservationKb.Some? then j.allowance.reservationKb.value else j.allowance.memoryKb;
    Max(reserve, Sum(j.allowance.footprint.Keys, At(s.footprints)))
    - Sum(j.allowance.footprint.Keys * s.trackedPids, At(s.footprints))
  }

  ghost function Unused(s: Sample, j: Job): int {
    var reserve := if j.allowance.reservationKb.Some? then j.allowance.reservationKb.value else j.allowance.memoryKb;
    Max(0, reserve - Sum(j.allowance.footprint.Keys, At(s.footprints)))
  }

  /** A sum over the running jobs. */
  ghost function OverRunning(jobs: seq<Job>, f: Job -> int): int {
    if jobs == [] then 0
    else OverRunning(jobs[1..], f) + if jobs[0].status == Running then f(jobs[0]) else 0
  }

  ghost function Charges(s: Sample, jobs: seq<Job>): int { OverRunning(jobs, j => Charge(s, j)) }

  ghost function Growth(s: Sample, jobs: seq<Job>): int { OverRunning(jobs, j => Unused(s, j)) }

  /** Running jobs without a resource. */
  function Unbound(jobs: seq<Job>): int {
    if jobs == [] then 0 else Unbound(jobs[1..]) + if jobs[0].status == Running && jobs[0].resource.None? then 1 else 0
  }

  lemma {:induction false} OverRunningLast(jobs: seq<Job>, f: Job -> int)
    requires jobs != []
    ensures var last := jobs[|jobs| - 1];
      OverRunning(jobs, f) == OverRunning(jobs[..|jobs| - 1], f) + if last.status == Running then f(last) else 0
  {
    if |jobs| > 1 {
      OverRunningLast(jobs[1..], f);
      assert jobs[..|jobs| - 1][1..] == jobs[1..][..|jobs| - 2];
    }
  }

  lemma {:induction false} ChargesExactly(s: Sample, jobs: seq<Job>)
    ensures Charged(s, jobs) == Charges(s, jobs) && Outstanding(s, jobs) == Growth(s, jobs)
  {
    if jobs != [] {
      ChargesExactly(s, jobs[..|jobs| - 1]);
      OverRunningLast(jobs, j => Charge(s, j));
      OverRunningLast(jobs, j => Unused(s, j));
    }
  }

  lemma {:induction false} UnboundLast(jobs: seq<Job>)
    requires jobs != []
    ensures var last := jobs[|jobs| - 1];
      Unbound(jobs) == Unbound(jobs[..|jobs| - 1]) + if last.status == Running && last.resource.None? then 1 else 0
  {
    if |jobs| > 1 {
      UnboundLast(jobs[1..]);
      assert jobs[..|jobs| - 1][1..] == jobs[1..][..|jobs| - 2];
    }
  }

  lemma {:induction false} UnboundExactly(jobs: seq<Job>)
    ensures FiniteCount(jobs) == Unbound(jobs)
  {
    if jobs != [] {
      UnboundExactly(jobs[..|jobs| - 1]);
      UnboundLast(jobs);
    }
  }

  /** Every running job holds a non-negative amount, and uses one in each of its processes. */
  predicate Measurable(s: Sample, jobs: seq<Job>) {
    forall j :: j in jobs && j.status == Running ==>
      && (if j.allowance.reservationKb.Some? then j.allowance.reservationKb.value >= 0 else j.allowance.memoryKb >= 0)
      && forall p :: p in j.allowance.footprint && p in s.footprints ==> s.footprints[p] >= 0
  }

  // ------------------------------------------------------------------ conditions

  predicate Measured(s: Sample) {
    && s.trackedKb.Some? && s.trackedKb.value >= 0 && s.capKb.Some? && s.capKb.value >= 0
    && s.availableKb.Some? && s.availableKb.value >= 0
  }

  /** The sample is at most two seconds old. */
  predicate Recent(s: Sample, now: real) {
    s.monotonic.Some? && s.monotonic.value >= 0.0 && s.monotonic.value <= now <= s.monotonic.value + 2.0
  }

  /** No cooldown runs. */
  predicate Cool(c: Controller, now: real) {
    if c.cooldownUntil.Some? then now >= c.cooldownUntil.value else now >= 0.0
  }

  /** Healthy for two seconds. */
  predicate Stable(c: Controller, now: real) { c.healthySince.Some? && now >= c.healthySince.value + 2.0 }

  /** The last start is two seconds back; without one, the beginning of time is. */
  predicate Spaced(c: Controller, now: real) {
    if c.lastStart.Some? then now >= c.lastStart.value + 2.0 else now >= 2.0
  }

  predicate Calm(c: Controller, now: real) { Cool(c, now) && Stable(c, now) && Spaced(c, now) }

  /** Physical memory an admission leaves free; adaptive ones need half a GiB at the most. */
  predicate LeavesFree(kb: int, policy: Policy) {
    kb >= policy.headroomKb || (policy.mode != Strict && kb >= 524288)
  }

  predicate Free(policy: Policy, jobs: seq<Job>, request: Request) {
    request.resource.Some? || Unbound(jobs) < policy.maxJobs
  }

  ghost predicate InBudget(policy: Policy, s: Sample, jobs: seq<Job>, request: Request)
    requires Measured(s)
  {
    policy.mode != Strict || s.trackedKb.value + Charges(s, jobs) + request.memoryKb <= s.capKb.value
  }

  ghost predicate HasRoom(policy: Policy, s: Sample, jobs: seq<Job>, request: Request)
    requires Measured(s)
  {
    LeavesFree(s.availableKb.value - Growth(s, jobs) - request.memoryKb, policy)
  }

  lemma ConditionsExactly(policy: Policy, s: Sample, jobs: seq<Job>)
    ensures Charged(s, jobs) == Charges(s, jobs) && Outstanding(s, jobs) == Growth(s, jobs)
    ensures FiniteCount(jobs) == Unbound(jobs) && (AllChargeable(s, jobs) <==> Measurable(s, jobs))
  {
    ChargesExactly(s, jobs);
    UnboundExactly(jobs);
    MeasurableExactly(s, jobs);
  }

  /** A request is allowed exactly when everything below holds. */
  lemma AllowedExactly(policy: Policy, s: Sample, c: Controller, now: real, jobs: seq<Job>, request: Request)
    ensures Verdict(policy, s, c, now, jobs, request).allow <==>
      && !s.busy && (policy.mode == Strict || policy.mode == Adaptive) && request.memoryKb > 0
      && s.fault == Some(false) && s.pressure.Some? && s.pressure.value in policy.allowedPressure
      && Measured(s) && Free(policy, jobs, request) && Measurable(s, jobs) && InBudget(policy, s, jobs, request)
      && (policy.mode == Adaptive ==> Recent(s, now) && Calm(c, now)) && HasRoom(policy, s, jobs, request)
  {
    ConditionsExactly(policy, s, jobs);
  }

  /** What a request is told: the first of these that is not met, in this order. */
  lemma ReasonExactly(policy: Policy, s: Sample, c: Controller, now: real, jobs: seq<Job>, request: Request)
    ensures var d := Verdict(policy, s, c, now, jobs, request);
      d.reason ==
        if s.busy then SamplingReason
        else if (policy.mode != Strict && policy.mode != Adaptive) || request.memoryKb <= 0 then PressureOrMeasurement
        else if s.fault.None? then Measurement
        else if s.fault.value then PressureOrMeasurement
        else if s.pressure.None? then Measurement
        else if s.pressure.value !in policy.allowedPressure then PressureOrMeasurement
        else if !Measured(s) then Measurement
        else if !Free(policy, jobs, request) then Slots
        else if !Measurable(s, jobs) then Measurement
        else if !InBudget(policy, s, jobs, request) then Budget
        else if policy.mode == Adaptive && !(s.monotonic.Some? && 0.0 <= s.monotonic.value <= now) then Measurement
        else if policy.mode == Adaptive && !Recent(s, now) then SamplingReason
        else if policy.mode == Adaptive && !Cool(c, now) then Paging
        else if policy.mode == Adaptive && !Stable(c, now) then Stabilizing
        else if policy.mode == Adaptive && !Spaced(c, now) then Startup
        else if !HasRoom(policy, s, jobs, request) then Headroom
        else Available
  {
    ConditionsExactly(policy, s, jobs);
  }

  /** What it is given: the whole request when allowed, with a startup credit in adaptive mode
      alone; and how much of the physical margin is missing, once that was looked at. */
  lemma GrantExactly(policy: Policy, s: Sample, c: Controller, now: real, jobs: seq<Job>, request: Request)
    ensures var d := Verdict(policy, s, c, now, jobs, request);
      && d.reservationKb == (if d.allow then request.memoryKb else 0)
      && d.startupCredit == (if d.allow && policy.mode == Adaptive then 1 else 0)
      && (d.report.Report? <==> d.reason == Headroom || d.reason == Available)
      && (d.report.Report? ==>
            && d.report.outstandingKb == Growth(s, jobs)
            && (if policy.mode == Strict || policy.headroomKb <= 524288
                then d.report.headroomKb == policy.headroomKb else d.report.headroomKb == 524288)
            && d.report.deficitKb
               == Max(0, d.report.headroomKb + Growth(s, jobs) + request.memoryKb - s.availableKb.GetOr(0)))
  {
    ConditionsExactly(policy, s, jobs);
  }

  lemma MeasurableExactly(s: Sample, jobs: seq<Job>)
    ensures AllChargeable(s, jobs) <==> Measurable(s, jobs)
  {
  }
}
