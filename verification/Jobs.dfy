/** The queue record of one workload: identity, ownership, priority lane and memory allowance. */
module Jobs {
  import opened Common

  /** One observation kept by the sliding peak window. */
  datatype Point = Point(stamp: real, kb: int)

  /** The memory half of a job record. */
  datatype Allowance = Allowance(
    memoryKb: int,
    reservationKb: Option<int>,
    elastic: bool,
    orphaned: bool,
    recoveryActive: bool,
    footprint: map<Pid, Start>,
    admissionPeakKb: Option<int>,
    observedPeakKb: int,
    window: seq<Point>,
    windowSince: Option<real>,
    started: Option<real>,
    source: int)
  {
    /** What the job currently holds: its reservation, or its request before it has one. */
    function Reserve(): int { reservationKb.GetOr(memoryKb) }

    /** A departed supervisor's group that no scan has recovered. */
    predicate Uncertain() { orphaned && !recoveryActive }
  }

  datatype Status = Waiting | Running

  /** Completion scopes: a subagent's key extends its parent's. */
  datatype SessionKey = NoSession | Parent(parent: Token) | Subagent(parent: Token, child: Token)

  datatype Bucket = SessionBucket(parent: Token) | ProjectBucket(cwd: Token)

  datatype Lane = Heavy | Small

  datatype Job = Job(
    id: Token,
    status: Status,
    resource: Option<Token>,
    session: SessionKey,
    cwd: Token,
    owner: Pid,
    ownerStart: Start,
    group: Pid,
    members: map<Pid, Start>,
    allowance: Allowance,
    enqueued: Option<real>,
    laneVersion: int,
    demandVersion: int,
    fairnessVersion: int,
    smallCandidate: bool,
    estimateSource: int,
    completeRuns: int)
  {
    predicate RunningFinite() { status == Running && resource == None }
  }

  /** The share of the rotation a job draws on: siblings and subagents share one. */
  function BucketOf(job: Job): Bucket {
    match job.session
    case NoSession => ProjectBucket(job.cwd)
    case Parent(p) => SessionBucket(p)
    case Subagent(p, _) => SessionBucket(p)
  }

  predicate SmallEvidence(job: Job) {
    && job.demandVersion != 1 && job.laneVersion == 1 && job.resource == None
    && job.smallCandidate && job.allowance.elastic && job.estimateSource == 3
    && job.completeRuns >= 3
  }

  /** Small work has complete exact-profile evidence that request, reservation and
      5/4 of the observed peak all fit in 1 GiB. */
  function LaneOf(job: Job): (l: Lane) {
    var a := job.allowance;
    if && SmallEvidence(job)
       && 0 < a.memoryKb <= GIB
       && 0 <= a.Reserve() <= GIB
       && 0 <= a.observedPeakKb && 5 * a.observedPeakKb <= 4 * GIB
    then Small else Heavy
  }

  function At(footprints: map<Pid, int>): Pid -> int {
    p => if p in footprints then footprints[p] else 0
  }

  /** The footprint attributed to a job by one sample; unmeasured members count as zero. */
  ghost function Measured(footprints: map<Pid, int>, members: set<Pid>): int {
    Sum(members, At(footprints))
  }

  method Measure(footprints: map<Pid, int>, members: set<Pid>) returns (kb: int)
    ensures kb == Measured(footprints, members)
  {
    kb := 0;
    var rest := members;
    while rest != {}
      invariant kb + Sum(rest, At(footprints)) == Measured(footprints, members)
      decreases |rest|
    {
      var p := Take(rest);
      SumRemove(rest, p, At(footprints));
      kb := kb + At(footprints)(p);
      rest := rest - {p};
    }
  }

  function FiniteCount(jobs: seq<Job>): nat {
    if jobs == [] then 0
    else FiniteCount(jobs[..|jobs| - 1]) + (if jobs[|jobs| - 1].RunningFinite() then 1 else 0)
  }
}
