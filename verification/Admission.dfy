/** Pure admission decisions (libexec/admission.py): charged footprint, physical
    headroom and the pressure controller. Clocks are real seconds, memory is KiB. */
module Admission {
  import opened Common
  import opened Jobs

  datatype Mode = Strict | Adaptive | UnknownMode

  datatype Policy = Policy(mode: Mode, maxJobs: nat, headroomKb: int, allowedPressure: set<int>)

  /** A host sample. Keys that a failed probe leaves out are None. */
  datatype Sample = Sample(
    busy: bool,
    fault: Option<bool>,
    pressure: Option<int>,
    trackedKb: Option<int>,
    capKb: Option<int>,
    availableKb: Option<int>,
    footprints: map<Pid, int>,
    trackedPids: set<Pid>,
    monotonic: Option<real>,
    bootId: Option<Token>,
    swapOutKbps: Option<real>)

  datatype Controller = Controller(
    bootId: Option<Token>,
    lastSample: Option<real>,
    healthySince: Option<real>,
    cooldownUntil: Option<real>,
    pagingSince: Option<real>,
    lastStart: Option<real>)

  const NEW_CONTROLLER := Controller(None, None, None, None, None, None)

  datatype Reason =
    | SamplingReason | PressureOrMeasurement | Measurement | Slots | Budget
    | Paging | Stabilizing | Startup | Headroom | Available

  datatype Request = Request(memoryKb: int, resource: Option<Token>)

  datatype Report = NoReport | Report(outstandingKb: int, headroomKb: int, deficitKb: int)

  datatype Decision = Decision(allow: bool, reason: Reason, reservationKb: int, startupCredit: int, report: Report)

  function Deny(reason: Reason): Decision { Decision(false, reason, 0, 0, NoReport) }

  // ---------------------------------------------------------------- controller

  /** An older or repeated sample of the same boot, which must not roll the controller back. */
  predicate Stale(c: Controller, s: Sample, now: real) {
    var stamp := s.monotonic.GetOr(now);
    s.bootId == c.bootId && stamp >= 0.0
    && c.lastSample.Some? && c.lastSample.value >= 0.0 && stamp <= c.lastSample.value
  }

  predicate Unhealthy(s: Sample) {
    s.fault == Some(true) || s.pressure.None? || s.pressure.value !in {1, 2}
  }

  predicate SwappingUnderPressure(s: Sample) {
    s.pressure == Some(2) && s.swapOutKbps.Some? && s.swapOutKbps.value >= 131072.0
  }

  function Advanced(c: Controller, s: Sample, now: real): Controller {
    if Stale(c, s, now) then c else
    var kept := if s.bootId == c.bootId then c
                else NEW_CONTROLLER.(healthySince := Some(now), bootId := s.bootId);
    var health := if Unhealthy(s) then kept.(healthySince := Some(now), cooldownUntil := Some(now + 6.0))
                  else kept.(healthySince := Some(kept.healthySince.GetOr(now)));
    var seen := health.(lastSample := Some(s.monotonic.GetOr(now)));
    if !SwappingUnderPressure(s) then seen.(pagingSince := None) else
    var since := seen.pagingSince.GetOr(now);
    seen.(pagingSince := Some(since),
          cooldownUntil := if now - since >= 10.0 then Some(now + 6.0) else seen.cooldownUntil)
  }

  /** The controller update, field by field on a copy of the stored dictionary. */
  method Advance(controller: Controller, sample: Sample, now: real) returns (state: Controller)
    ensures state == Advanced(controller, sample, now)
  {
    state := controller;
    var stamp := sample.monotonic.GetOr(now);
    if sample.bootId == state.bootId && stamp >= 0.0
       && state.lastSample.Some? && state.lastSample.value >= 0.0 && stamp <= state.lastSample.value {
      return;
    }
    if sample.bootId != state.bootId {
      state := NEW_CONTROLLER.(healthySince := Some(now), bootId := sample.bootId);
    }
    state := state.(lastSample := Some(stamp));
    if sample.fault == Some(true) || sample.pressure.None? || sample.pressure.value !in {1, 2} {
      state := state.(healthySince := Some(now), cooldownUntil := Some(now + 6.0));
    } else if state.healthySince.None? {
      state := state.(healthySince := Some(now));
    }
    if sample.pressure == Some(2) && sample.swapOutKbps.Some? && sample.swapOutKbps.value >= 131072.0 {
      if state.pagingSince.None? {
        state := state.(pagingSince := Some(now));
      }
      if now - state.pagingSince.value >= 10.0 {
        state := state.(cooldownUntil := Some(now + 6.0));
      }
    } else {
      state := state.(pagingSince := None);
    }
  }

  // ------------------------------------------------------------------ charging

  /** The allowance a job is charged for: never less than its measured footprint. */
  ghost function Held(s: Sample, a: Allowance): int {
    Max(a.Reserve(), Measured(s.footprints, a.footprint.Keys))
  }

  /** The part of a job's footprint the tracked total already contains. */
  ghost function Already(s: Sample, a: Allowance): int {
    Measured(s.footprints, a.footprint.Keys * s.trackedPids)
  }

  predicate Chargeable(s: Sample, a: Allowance) {
    a.Reserve() >= 0 && forall p :: p in a.footprint ==> At(s.footprints)(p) >= 0
  }

  /** Sum of the allowances not yet contained in the tracked total. */
  ghost function Charged(s: Sample, jobs: seq<Job>): int {
    if jobs == [] then 0 else
    var j := jobs[|jobs| - 1];
    Charged(s, jobs[..|jobs| - 1])
    + (if j.status == Running then Held(s, j.allowance) - Already(s, j.allowance) else 0)
  }

  /** Sum of the allowances the running jobs have not yet used. */
  ghost function Outstanding(s: Sample, jobs: seq<Job>): int {
    if jobs == [] then 0 else
    var j := jobs[|jobs| - 1];
    Outstanding(s, jobs[..|jobs| - 1])
    + (if j.status == Running then Held(s, j.allowance) - Measured(s.footprints, j.allowance.footprint.Keys) else 0)
  }

  predicate AllChargeable(s: Sample, jobs: seq<Job>) {
    forall j :: j in jobs && j.status == Running ==> Chargeable(s, j.allowance)
  }

  // ------------------------------------------------------------------- verdict

  predicate SampleNumbers(s: Sample) {
    && s.trackedKb.Some? && s.trackedKb.value >= 0
    && s.capKb.Some? && s.capKb.value >= 0
    && s.availableKb.Some? && s.availableKb.value >= 0
  }

  /** Emergency physical margin in adaptive mode, full headroom in strict mode. */
  function Margin(policy: Policy): int {
    if policy.mode == Strict then policy.headroomKb else Min(policy.headroomKb, GIB / 2)
  }

  /** The time gates of adaptive mode, in the order they are reported. */
  function Gate(s: Sample, c: Controller, now: real): Option<Reason> {
    if s.monotonic.None? || now < 0.0 || s.monotonic.value < 0.0 || now < s.monotonic.value then Some(Measurement)
    else if now - s.monotonic.value > 2.0 then Some(SamplingReason)
    else if now < c.cooldownUntil.GetOr(0.0) then Some(Paging)
    else if now - c.healthySince.GetOr(now) < 2.0 then Some(Stabilizing)
    else if now - c.lastStart.GetOr(0.0) < 2.0 then Some(Startup)
    else None
  }

  /** The measurement refusals that precede any arithmetic. */
  function Unusable(policy: Policy, s: Sample, memoryKb: int): Option<Reason> {
    if s.busy then Some(SamplingReason)
    else if policy.mode == UnknownMode || memoryKb <= 0 then Some(PressureOrMeasurement)
    else if s.fault.None? then Some(Measurement)
    else if s.fault.value then Some(PressureOrMeasurement)
    else if s.pressure.None? then Some(Measurement)
    else if s.pressure.value !in policy.allowedPressure then Some(PressureOrMeasurement)
    else if !SampleNumbers(s) then Some(Measurement)
    else None
  }

  /** Everything an admission needs, without the order in which refusals are reported. */
  ghost predicate Admits(policy: Policy, s: Sample, c: Controller, now: real, jobs: seq<Job>, request: Request) {
    && Unusable(policy, s, request.memoryKb) == None
    && SampleNumbers(s)
    && (request.resource == None ==> FiniteCount(jobs) < policy.maxJobs)
    && AllChargeable(s, jobs)
    && (policy.mode == Strict ==> s.trackedKb.value + Charged(s, jobs) + request.memoryKb <= s.capKb.value)
    && (policy.mode == Adaptive ==> Gate(s, c, now) == None)
    && s.availableKb.value - Outstanding(s, jobs) - request.memoryKb >= Margin(policy)
  }

  ghost function Verdict(policy: Policy, s: Sample, c: Controller, now: real, jobs: seq<Job>,
                         request: Request): Decision {
    var unusable := Unusable(policy, s, request.memoryKb);
    if unusable.Some? then Deny(unusable.value)
    else if request.resource == None && FiniteCount(jobs) >= policy.maxJobs then Deny(Slots)
    else if !AllChargeable(s, jobs) then Deny(Measurement)
    else if policy.mode == Strict
        && s.trackedKb.value + Charged(s, jobs) + request.memoryKb > s.capKb.value then Deny(Budget)
    else if policy.mode == Adaptive && Gate(s, c, now).Some? then Deny(Gate(s, c, now).value)
    else
      var outstanding := Outstanding(s, jobs);
      var report := Report(outstanding, Margin(policy),
                           Max(0, Margin(policy) + outstanding + request.memoryKb - s.availableKb.value));
      if s.availableKb.value - outstanding - request.memoryKb < Margin(policy) then Deny(Headroom).(report := report)
      else Decision(true, Available, request.memoryKb, if policy.mode == Adaptive then 1 else 0, report)
  }

  lemma VerdictAllowsExactly(policy: Policy, s: Sample, c: Controller, now: real, jobs: seq<Job>, request: Request)
    ensures Verdict(policy, s, c, now, jobs, request).allow <==> Admits(policy, s, c, now, jobs, request)
  {
  }

  /** The decision procedure: one pass over the running jobs accumulating both charges. */
  method Decide(policy: Policy, sample: Sample, controller: Controller, now: real, jobs: seq<Job>, request: Request)
    returns (d: Decision)
    ensures d == Verdict(policy, sample, controller, now, jobs, request)
  {
    var unusable := Unusable(policy, sample, request.memoryKb);
    if unusable.Some? {
      return Deny(unusable.value);
    }
    if request.resource == None && FiniteCount(jobs) >= policy.maxJobs {
      return Deny(Slots);
    }
    var accounted := sample.trackedKb.value;
    var outstanding := 0;
    for i := 0 to |jobs|
      invariant AllChargeable(sample, jobs[..i])
      invariant accounted == sample.trackedKb.value + Charged(sample, jobs[..i])
      invariant outstanding == Outstanding(sample, jobs[..i])
    {
      assert jobs[..i + 1][..i] == jobs[..i];
      var job := jobs[i];
      if job.status == Running {
        var a := job.allowance;
        if !Chargeable(sample, a) {
          assert job in jobs;
          return Deny(Measurement);
        }
        var measured := Measure(sample.footprints, a.footprint.Keys);
        var reserve := Max(a.Reserve(), measured);
        var already := Measure(sample.footprints, a.footprint.Keys * sample.trackedPids);
        accounted := accounted + reserve - already;
        outstanding := outstanding + Max(0, reserve - measured);
      }
    }
    assert jobs[..|jobs|] == jobs;
    var headroom := policy.headroomKb;
    if policy.mode == Strict {
      if accounted + request.memoryKb > sample.capKb.value {
        return Deny(Budget);
      }
    } else {
      var gate := Gate(sample, controller, now);
      if gate.Some? {
        return Deny(gate.value);
      }
      headroom := Min(policy.headroomKb, GIB / 2);
    }
    var report := Report(outstanding, headroom,
                         Max(0, headroom + outstanding + request.memoryKb - sample.availableKb.value));
    if sample.availableKb.value - outstanding - request.memoryKb < headroom {
      return Deny(Headroom).(report := report);
    }
    d := Decision(true, Available, request.memoryKb, if policy.mode == Adaptive then 1 else 0, report);
  }

  // -------------------------------------------------------------- monotonicity

  lemma {:induction false} ChargesAreNonNegative(s: Sample, a: Allowance)
    requires Chargeable(s, a)
    ensures 0 <= Already(s, a) <= Measured(s.footprints, a.footprint.Keys) <= Held(s, a)
  {
    SumSubset(a.footprint.Keys * s.trackedPids, a.footprint.Keys, At(s.footprints));
  }

  /** Taking one job out of the registry never raises a charge or the slot count. */
  lemma {:induction false} RemovalRelaxes(s: Sample, jobs: seq<Job>, i: nat)
    requires i < |jobs| && AllChargeable(s, jobs)
    ensures var fewer := jobs[..i] + jobs[i + 1..];
      && Charged(s, fewer) <= Charged(s, jobs)
      && Outstanding(s, fewer) <= Outstanding(s, jobs)
      && FiniteCount(fewer) <= FiniteCount(jobs)
  {
    var fewer := jobs[..i] + jobs[i + 1..];
    var last := jobs[|jobs| - 1];
    if last.status == Running {
      ChargesAreNonNegative(s, last.allowance);
    }
    if i == |jobs| - 1 {
      assert fewer == jobs[..|jobs| - 1];
    } else {
      var front := jobs[..|jobs| - 1];
      RemovalRelaxes(s, front, i);
      assert fewer[..|fewer| - 1] == front[..i] + front[i + 1..];
      assert fewer[|fewer| - 1] == last;
    }
  }

  /** A refusal is never caused by asking for less or by a running job having left. */
  lemma AllowSurvivesRelaxation(policy: Policy, s: Sample, c: Controller, now: real, jobs: seq<Job>, i: nat,
                                request: Request, less: int)
    requires i < |jobs| && 0 < less <= request.memoryKb
    requires Verdict(policy, s, c, now, jobs, request).allow
    ensures Verdict(policy, s, c, now, jobs, request.(memoryKb := less)).allow
    ensures Verdict(policy, s, c, now, jobs[..i] + jobs[i + 1..], request).allow
  {
    RemovalRelaxes(s, jobs, i);
  }

  // ----------------------------------------------------------- joint admission

  /** What a launch adds to the registry before any sample has seen its process. */
  predicate LaunchedAs(job: Job, request: Request, s: Sample) {
    && job.status == Running && job.resource == request.resource
    && job.allowance.Reserve() == request.memoryKb
    && job.allowance.footprint.Keys !! s.footprints.Keys
  }

  /** One admission: the controller and clock it was decided with, and the job it launched. */
  datatype Admission = Admission(controller: Controller, now: real, request: Request, job: Job)

  function Launched(run: seq<Admission>): (jobs: seq<Job>)
    ensures |jobs| == |run|
  {
    if run == [] then [] else Launched(run[..|run| - 1]) + [run[|run| - 1].job]
  }

  /** A run of admissions decided on one sample, each launched before the next is decided. */
  ghost predicate AdmittedInTurn(policy: Policy, s: Sample, jobs: seq<Job>, run: seq<Admission>) {
    run == [] ||
    var front, last := run[..|run| - 1], run[|run| - 1];
    && AdmittedInTurn(policy, s, jobs, front)
    && Verdict(policy, s, last.controller, last.now, jobs + Launched(front), last.request).allow
    && LaunchedAs(last.job, last.request, s)
  }

  lemma UnseenJobCharge(s: Sample, jobs: seq<Job>, job: Job, request: Request)
    requires LaunchedAs(job, request, s) && request.memoryKb > 0
    ensures Charged(s, jobs + [job]) == Charged(s, jobs) + request.memoryKb
    ensures Outstanding(s, jobs + [job]) == Outstanding(s, jobs) + request.memoryKb
    ensures FiniteCount(jobs + [job]) == FiniteCount(jobs) + (if request.resource == None then 1 else 0)
    ensures AllChargeable(s, jobs) ==> AllChargeable(s, jobs + [job])
  {
    assert (jobs + [job])[..|jobs|] == jobs;
    UnseenSumsToZero(s.footprints, job.allowance.footprint.Keys);
    UnseenSumsToZero(s.footprints, job.allowance.footprint.Keys * s.trackedPids);
  }

  lemma {:induction false} UnseenSumsToZero(footprints: map<Pid, int>, members: set<Pid>)
    requires members !! footprints.Keys
    ensures Measured(footprints, members) == 0
    decreases |members|
  {
    if members != {} {
      var p := Pick(members);
      SumRemove(members, p, At(footprints));
      UnseenSumsToZero(footprints, members - {p});
    }
  }

  /** However many supervisors are admitted on one cached sample, the jobs together
      stay inside the strict budget and the physical margin. */
  lemma NoJointOvercommit(policy: Policy, s: Sample, jobs: seq<Job>, run: seq<Admission>)
    requires run != [] && AdmittedInTurn(policy, s, jobs, run)
    ensures SampleNumbers(s) && AllChargeable(s, jobs + Launched(run))
    ensures policy.mode == Strict ==> s.trackedKb.value + Charged(s, jobs + Launched(run)) <= s.capKb.value
    ensures s.availableKb.value - Outstanding(s, jobs + Launched(run)) >= Margin(policy)
  {
    var last := run[|run| - 1];
    var before := jobs + Launched(run[..|run| - 1]);
    assert before + [last.job] == jobs + Launched(run);
    VerdictAllowsExactly(policy, s, last.controller, last.now, before, last.request);
    UnseenJobCharge(s, before, last.job, last.request);
  }

  /** Nor do they together exceed the slots for finite jobs. */
  lemma {:induction false} NoJointSlotOverrun(policy: Policy, s: Sample, jobs: seq<Job>, run: seq<Admission>)
    requires AdmittedInTurn(policy, s, jobs, run)
    ensures FiniteCount(jobs + Launched(run)) <= Max(policy.maxJobs, FiniteCount(jobs))
  {
    if run == [] {
      assert jobs + Launched(run) == jobs;
    } else {
      var last := run[|run| - 1];
      var before := jobs + Launched(run[..|run| - 1]);
      assert before + [last.job] == jobs + Launched(run);
      VerdictAllowsExactly(policy, s, last.controller, last.now, before, last.request);
      UnseenJobCharge(s, before, last.job, last.request);
      NoJointSlotOverrun(policy, s, jobs, run[..|run| - 1]);
    }
  }

  // ------------------------------------------------- the charge counts once

  ghost function HeldTotal(s: Sample, jobs: seq<Job>): int {
    if jobs == [] then 0 else
    var j := jobs[|jobs| - 1];
    HeldTotal(s, jobs[..|jobs| - 1]) + (if j.status == Running then Held(s, j.allowance) else 0)
  }

  function Owned(jobs: seq<Job>): set<Pid> {
    if jobs == [] then {} else
    var j := jobs[|jobs| - 1];
    Owned(jobs[..|jobs| - 1]) + (if j.status == Running then j.allowance.footprint.Keys else {})
  }

  /** Every process is attributed to at most one running job. */
  predicate Disjoint(jobs: seq<Job>) {
    forall i, j :: 0 <= i < j < |jobs| && jobs[i].status == Running && jobs[j].status == Running
      ==> jobs[i].allowance.footprint.Keys !! jobs[j].allowance.footprint.Keys
  }

  lemma {:induction false} OwnedByOne(jobs: seq<Job>, p: Pid)
    ensures p in Owned(jobs) <==>
      exists i :: 0 <= i < |jobs| && jobs[i].status == Running && p in jobs[i].allowance.footprint
  {
    if jobs != [] {
      var n := |jobs| - 1;
      OwnedByOne(jobs[..n], p);
      if p in Owned(jobs[..n]) {
        var i :| 0 <= i < n && jobs[..n][i].status == Running && p in jobs[..n][i].allowance.footprint;
        assert jobs[i].status == Running;
      }
      if i :| 0 <= i < |jobs| && jobs[i].status == Running && p in jobs[i].allowance.footprint {
        if i < n { assert jobs[..n][i].status == Running; }
      }
    }
  }

  /** How far the accounted total falls short of the jobs' whole allowances together with the
      tracked memory that belongs to none of them. */
  ghost function Shortfall(s: Sample, jobs: seq<Job>): int {
    HeldTotal(s, jobs) + Measured(s.footprints, s.trackedPids - Owned(jobs))
    - Measured(s.footprints, s.trackedPids) - Charged(s, jobs)
  }

  /** Two running jobs both claim a tracked process that uses memory. */
  ghost predicate ClaimedTwice(s: Sample, jobs: seq<Job>, p: Pid) {
    && p in s.trackedPids && At(s.footprints)(p) != 0
    && exists i, j :: 0 <= i < j < |jobs| && Claims(jobs[i], p) && Claims(jobs[j], p)
  }

  predicate ClaimedAgain(s: Sample, front: seq<Job>, j: Job, p: Pid) {
    p in s.trackedPids && At(s.footprints)(p) != 0 && Claims(j, p) && p in Owned(front)
  }

  predicate Claims(job: Job, p: Pid) { job.status == Running && p in job.allowance.footprint }

  lemma {:induction false} SumIsZero(a: set<Pid>, f: Pid -> int)
    requires forall p :: p in a ==> f(p) >= 0
    ensures Sum(a, f) >= 0 && (Sum(a, f) == 0 <==> forall p :: p in a ==> f(p) == 0)
    decreases |a|
  {
    if a != {} {
      var q := Pick(a);
      SumRemove(a, q, f);
      SumIsZero(a - {q}, f);
    }
  }

  lemma OwnedSums(tracked: set<Pid>, owned: set<Pid>, mine: set<Pid>, f: Pid -> int)
    ensures Sum(tracked - owned, f)
            == Sum(tracked - (owned + mine), f) + Sum(mine * tracked, f) - Sum(mine * tracked * owned, f)
  {
    var again, first := mine * tracked * owned, mine * tracked - owned;
    assert mine * tracked == again + first;
    SumUnion(again, first, f);
    assert tracked - owned == (tracked - (owned + mine)) + first;
    SumUnion(tracked - (owned + mine), first, f);
  }

  /** What one more job adds: the tracked memory of its members that an earlier job owns. */
  lemma ShortfallGrows(s: Sample, jobs: seq<Job>)
    requires jobs != []
    ensures var front, j := jobs[..|jobs| - 1], jobs[|jobs| - 1];
      Shortfall(s, jobs) == Shortfall(s, front)
        + if j.status == Running
          then Measured(s.footprints, j.allowance.footprint.Keys * s.trackedPids * Owned(front)) else 0
  {
    var front, j := jobs[..|jobs| - 1], jobs[|jobs| - 1];
    if j.status == Running {
      OwnedSums(s.trackedPids, Owned(front), j.allowance.footprint.Keys, At(s.footprints));
    } else {
      assert Owned(jobs) == Owned(front);
    }
  }

  lemma ClaimedTwiceMore(s: Sample, jobs: seq<Job>, p: Pid)
    requires jobs != []
    ensures var front, j := jobs[..|jobs| - 1], jobs[|jobs| - 1];
      ClaimedTwice(s, jobs, p) <==> (ClaimedTwice(s, front, p) || ClaimedAgain(s, front, j, p))
  {
    var n := |jobs| - 1;
    OwnedByOne(jobs[..n], p);
    if i, j :| 0 <= i < j < |jobs| && Claims(jobs[i], p) && Claims(jobs[j], p) {
      assert jobs[..n][i] == jobs[i];
      assert j < n ==> jobs[..n][j] == jobs[j];
    }
    if i, j :| 0 <= i < j < n && Claims(jobs[..n][i], p) && Claims(jobs[..n][j], p) {
      assert Claims(jobs[i], p) && Claims(jobs[j], p);
    }
    if i :| 0 <= i < n && jobs[..n][i].status == Running && p in jobs[..n][i].allowance.footprint {
      assert Claims(jobs[i], p);
    }
  }

  /** The accounted total never exceeds the allowances and the unowned tracked memory, and it
      meets them exactly when no two running jobs claim the same tracked memory: then nothing
      is counted twice and nothing tracked is forgotten. */
  lemma {:induction false} ChargeCountsEachByteOnce(s: Sample, jobs: seq<Job>)
    requires AllChargeable(s, jobs)
    ensures Shortfall(s, jobs) >= 0
    ensures Shortfall(s, jobs) == 0 <==> forall p :: !ClaimedTwice(s, jobs, p)
  {
    if jobs == [] {
      assert s.trackedPids - Owned(jobs) == s.trackedPids;
    } else {
      var n := |jobs| - 1;
      var front, j := jobs[..n], jobs[n];
      ChargeCountsEachByteOnce(s, front);
      ShortfallGrows(s, jobs);
      forall p ensures ClaimedTwice(s, jobs, p) <==> (ClaimedTwice(s, front, p) || ClaimedAgain(s, front, j, p)) {
        ClaimedTwiceMore(s, jobs, p);
      }
      if j.status == Running {
        var both := j.allowance.footprint.Keys * s.trackedPids * Owned(front);
        SumIsZero(both, At(s.footprints));
        assert forall p :: ClaimedAgain(s, front, j, p) <==> p in both && At(s.footprints)(p) != 0;
      }
    }
  }

  lemma DisjointClaimsOnce(s: Sample, jobs: seq<Job>)
    requires Disjoint(jobs)
    ensures forall p :: !ClaimedTwice(s, jobs, p)
  {
  }

  /** So in strict mode, on a sample whose tracked total covers its tracked processes,
      the admitted jobs' whole allowances and all unowned tracked memory fit the cap, up to
      what is claimed twice; and they fit it entirely if nothing is. */
  lemma StrictJobsFitTheCap(policy: Policy, s: Sample, jobs: seq<Job>, run: seq<Admission>)
    requires policy.mode == Strict && run != [] && AdmittedInTurn(policy, s, jobs, run)
    requires s.trackedKb.Some? ==> s.trackedKb.value >= Measured(s.footprints, s.trackedPids)
    ensures s.capKb.Some?
    ensures var all := jobs + Launched(run);
      && (HeldTotal(s, all) + Measured(s.footprints, s.trackedPids - Owned(all)) <= s.capKb.value + Shortfall(s, all))
      && ((forall p :: !ClaimedTwice(s, all, p)) ==> Shortfall(s, all) == 0)
  {
    NoJointOvercommit(policy, s, jobs, run);
    ChargeCountsEachByteOnce(s, jobs + Launched(run));
  }

  // ------------------------------------------------------------- start spacing

  /** How a locked block of some supervisor ends. */
  datatype Outcome =
    | Abandoned                       // crashed or returned before saving
    | Saved                           // refused; registry saved
    | LaunchedPaused(at: real)        // released by an owner pause, no admission
    | LaunchedGated(policy: Policy, jobs: seq<Job>, request: Request, at: real)

  /** One locked block: the sample it holds (None while paused), the clock when it
      observes, and how it ends. */
  datatype Block = Block(sample: Option<Sample>, now: real, outcome: Outcome)

  /** The stored controller after the block's observation; the block's own view is the same record. */
  function Observed(c: Controller, b: Block): Controller {
    if b.sample.None? || b.sample.value.busy then c else Advanced(c, b.sample.value, b.now)
  }

  function Ends(b: Block): real {
    match b.outcome
    case LaunchedPaused(at) => at
    case LaunchedGated(_, _, _, at) => at
    case _ => b.now
  }

  predicate Launches(b: Block) { b.outcome.LaunchedPaused? || b.outcome.LaunchedGated? }

  /** The controller a block leaves in the saved registry. */
  function Stored(c: Controller, b: Block): Controller {
    match b.outcome
    case Abandoned => c
    case Saved => Observed(c, b)
    case _ => Observed(c, b).(lastStart := Some(Ends(b)))
  }

  function StoredAfter(c: Controller, run: seq<Block>): Controller {
    if run == [] then c else Stored(StoredAfter(c, run[..|run| - 1]), run[|run| - 1])
  }

  /** Blocks exclude each other and share one monotonic clock; a gated launch is one
      the decision allowed against the controller its own block observed. */
  ghost predicate ValidRun(c: Controller, run: seq<Block>) {
    && (forall i :: 0 <= i < |run| ==> run[i].now <= Ends(run[i]))
    && (forall i, j :: 0 <= i < j < |run| ==> Ends(run[i]) <= run[j].now)
    && (forall i :: 0 <= i < |run| && run[i].outcome.LaunchedGated? ==>
          && run[i].sample.Some?
          && Verdict(run[i].outcome.policy, run[i].sample.value, Observed(StoredAfter(c, run[..i]), run[i]), run[i].now,
                     run[i].outcome.jobs, run[i].outcome.request).allow)
  }

  /** The controller still remembers a launch: by its start stamp or, once a reset has
      erased that stamp, by a health clock that began no earlier. */
  predicate Remembers(c: Controller, launch: real) {
    || (c.lastStart.Some? && c.lastStart.value >= launch)
    || (c.healthySince.Some? && c.healthySince.value >= launch)
  }

  lemma {:induction false} EveryLaunchIsRemembered(c: Controller, run: seq<Block>, i: nat)
    requires ValidRun(c, run) && i < |run| && Launches(run[i])
    ensures Remembers(StoredAfter(c, run), Ends(run[i]))
  {
    var n := |run| - 1;
    var front := run[..n];
    if i < n {
      assert forall k :: 0 <= k < n ==> front[k] == run[k] && front[..k] == run[..k];
      EveryLaunchIsRemembered(c, front, i);
      assert Ends(run[i]) <= run[n].now;
    }
  }

  /** Start spacing: an adaptive admission comes at least two seconds after every
      earlier launch of any supervisor, strict, adaptive or released by a pause,
      across crashes, stale samples and controller resets. */
  lemma StartSpacing(c: Controller, run: seq<Block>, i: nat, j: nat)
    requires ValidRun(c, run) && i < j < |run|
    requires Launches(run[i]) && run[j].outcome.LaunchedGated? && run[j].outcome.policy.mode == Adaptive
    ensures Ends(run[j]) - Ends(run[i]) >= 2.0
  {
    var front := run[..j];
    assert forall k :: 0 <= k < j ==> front[k] == run[k] && front[..k] == run[..k];
    EveryLaunchIsRemembered(c, front, i);
    assert Remembers(Observed(StoredAfter(c, front), run[j]), Ends(run[i])) by {
      assert Ends(run[i]) <= run[j].now;
    }
  }
}
