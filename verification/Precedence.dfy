/** Who comes first among the waiters, in so many words (Scheduler.next_waiter and lane in
    libexec/scheduler.py). */
module Precedence {
  import opened Common
  import opened Jobs
  import opened Passes
  import opened Selection

  // ------------------------------------------------------- what is said of one job

  /** Jobs of one agent session, its subagents included; without a session, of one directory. */
  predicate SameSession(a: Job, b: Job) {
    match (a.session, b.session)
    case (NoSession, NoSession) => a.cwd == b.cwd
    case (Parent(p), Parent(q)) => p == q
    case (Parent(p), Subagent(q, _)) => p == q
    case (Subagent(p, _), Parent(q)) => p == q
    case (Subagent(p, _), Subagent(q, _)) => p == q
    case _ => false
  }

  lemma SessionExactly(a: Job, b: Job)
    ensures BucketOf(a) == BucketOf(b) <==> SameSession(a, b)
  {
  }

  /** Three complete runs of this very command fit a GiB with a quarter to spare, and so does
      what it asks for and holds. */
  predicate IsSmall(job: Job) {
    var a := job.allowance;
    var held := if a.reservationKb.Some? then a.reservationKb.value else a.memoryKb;
    && job.demandVersion != 1 && job.laneVersion == 1 && job.resource.None? && job.smallCandidate
    && a.elastic && job.estimateSource == 3 && job.completeRuns >= 3
    && 1 <= a.memoryKb <= 1048576 && 0 <= held <= 1048576 && 0 <= a.observedPeakKb && 5 * a.observedPeakKb <= 4194304
  }

  lemma LaneExactly(job: Job)
    ensures LaneOf(job) == Small <==> IsSmall(job)
  {
  }

  /** When it came; a job without a time counts as just arrived. */
  function Since(v: View, job: Job): real { if job.enqueued.Some? then job.enqueued.value else v.now }

  /** Finite jobs of the session that run now. */
  function Working(jobs: seq<Job>, job: Job): nat {
    if jobs == [] then 0
    else
      Working(jobs[1..], job)
      + if jobs[0].status == Running && jobs[0].resource.None? && SameSession(jobs[0], job) then 1 else 0
  }

  lemma {:induction false} WorkingLast(jobs: seq<Job>, job: Job)
    requires jobs != []
    ensures var last := jobs[|jobs| - 1];
      Working(jobs, job) == Working(jobs[..|jobs| - 1], job)
        + if last.status == Running && last.resource.None? && SameSession(last, job) then 1 else 0
  {
    if |jobs| > 1 {
      WorkingLast(jobs[1..], job);
      assert jobs[..|jobs| - 1][1..] == jobs[1..][..|jobs| - 2];
    }
  }

  lemma {:induction false} WorkingExactly(jobs: seq<Job>, job: Job)
    ensures Active(jobs, BucketOf(job)) == Working(jobs, job)
  {
    if jobs != [] {
      var n := |jobs| - 1;
      WorkingExactly(jobs[..n], job);
      WorkingLast(jobs, job);
      SessionExactly(jobs[n], job);
    }
  }

  /** When its session was served last; zero if never. */
  function Turn(v: View, job: Job): nat {
    match job.session
    case NoSession => TurnUnder(v, ProjectBucket(job.cwd))
    case Parent(p) => TurnUnder(v, SessionBucket(p))
    case Subagent(p, _) => TurnUnder(v, SessionBucket(p))
  }

  function TurnUnder(v: View, key: Bucket): nat { if key in v.turns then v.turns[key] else 0 }

  lemma TurnExactly(v: View, job: Job)
    ensures TurnOf(v.turns, job) == Turn(v, job)
  {
  }

  // --------------------------------------------------------------- who comes first

  /** Longest not served, then longest waiting. */
  predicate ByAge(v: View, a: Job, b: Job) {
    Turn(v, a) < Turn(v, b) || (Turn(v, a) == Turn(v, b) && Since(v, a) <= Since(v, b))
  }

  /** Small work first, but heavy work after three small admissions in a row. */
  predicate ByLaneThenAge(v: View, a: Job, b: Job) {
    if IsSmall(a) == IsSmall(b) then ByAge(v, a, b) else IsSmall(a) == (v.streak < 3)
  }

  /** No supervisor among the waiters is older than the lanes. */
  predicate KnowLanes(jobs: seq<Job>) { forall w :: w in jobs && w.status == Waiting ==> w.laneVersion == 1 }

  /** Nor than the fair shares. */
  predicate KnowShares(jobs: seq<Job>) { forall w :: w in jobs && w.status == Waiting ==> w.fairnessVersion == 2 }

  predicate InOrder(jobs: seq<Job>, v: View, a: Job, b: Job) {
    if KnowLanes(jobs) then ByLaneThenAge(v, a, b) else ByAge(v, a, b)
  }

  /** The session with fewest finite jobs running, then the one longest not served; old
      supervisors among the waiters do not take part in that. */
  predicate ComesFirst(jobs: seq<Job>, v: View, a: Job, b: Job) {
    if !KnowShares(jobs) then InOrder(jobs, v, a, b)
    else if Working(jobs, a) != Working(jobs, b) then Working(jobs, a) < Working(jobs, b)
    else if Turn(v, a) != Turn(v, b) then Turn(v, a) < Turn(v, b)
    else InOrder(jobs, v, a, b)
  }

  lemma ByAgeExactly(v: View, a: Job, b: Job)
    ensures ByTurn(v)(a, b) <==> ByAge(v, a, b)
  {
    TurnExactly(v, a);
    TurnExactly(v, b);
  }

  lemma ByLaneExactly(v: View, a: Job, b: Job)
    ensures ByLane(v)(a, b) <==> ByLaneThenAge(v, a, b)
  {
    LaneExactly(a);
    LaneExactly(b);
    ByAgeExactly(v, a, b);
  }

  lemma InOrderExactly(jobs: seq<Job>, v: View, a: Job, b: Job)
    ensures TieBreak(jobs, v)(a, b) <==> InOrder(jobs, v, a, b)
  {
    ByAgeExactly(v, a, b);
    ByLaneExactly(v, a, b);
    assert LanesKnown(Waiters(jobs)) <==> KnowLanes(jobs);
  }

  lemma PrecedesExactly(jobs: seq<Job>, v: View, a: Job, b: Job)
    ensures Precedes(jobs, v)(a, b) <==> ComesFirst(jobs, v, a, b)
  {
    InOrderExactly(jobs, v, a, b);
    WorkingExactly(jobs, a);
    WorkingExactly(jobs, b);
    TurnExactly(v, a);
    TurnExactly(v, b);
    assert Fair(Waiters(jobs)) <==> KnowShares(jobs);
  }

  /** Outside the drain branch, whoever is chosen comes first of all who fit. */
  lemma ChosenComesFirst(jobs: seq<Job>, h: Host, v: View, chosen: Job, w: Job)
    requires Leads(jobs, h, v, chosen)
    requires w in jobs && w.status == Waiting && Fits(jobs, h, v, w) && w != chosen
    ensures ComesFirst(jobs, v, chosen, w)
  {
    PrecedesExactly(jobs, v, chosen, w);
  }

  /** So within a session and a lane the longest waiting goes first. */
  lemma LongestWaitingFirst(jobs: seq<Job>, h: Host, v: View, chosen: Job, w: Job)
    requires Leads(jobs, h, v, chosen)
    requires w in jobs && w.status == Waiting && Fits(jobs, h, v, w) && w != chosen
    requires SameSession(chosen, w) && IsSmall(chosen) == IsSmall(w)
    ensures Since(v, chosen) <= Since(v, w)
  {
    ChosenComesFirst(jobs, h, v, chosen, w);
    SessionExactly(chosen, w);
    WorkingExactly(jobs, chosen);
    WorkingExactly(jobs, w);
  }

  /** And where share and turn are equal the lane decides. */
  lemma LaneDecides(jobs: seq<Job>, h: Host, v: View, chosen: Job, w: Job)
    requires Leads(jobs, h, v, chosen) && KnowLanes(jobs)
    requires w in jobs && w.status == Waiting && Fits(jobs, h, v, w) && w != chosen
    requires Working(jobs, chosen) == Working(jobs, w) && Turn(v, chosen) == Turn(v, w) && IsSmall(chosen) != IsSmall(w)
    ensures IsSmall(chosen) <==> v.streak < 3
  {
    ChosenComesFirst(jobs, h, v, chosen, w);
  }

  // --------------------------------------------------------------------- draining

  /** Waiting for a minute or more, and in strict mode or in the first six of thirty seconds of it. */
  predicate Aged(v: View, job: Job, n: int) {
    var age := v.now - Since(v, job);
    age >= 60.0 && (v.strict || InWindow(age, n))
  }

  /** Within six seconds of a multiple of thirty. */
  predicate InWindow(age: real, n: int) { 30.0 * n as real <= age < 30.0 * n as real + 6.0 }

  lemma WindowExactly(age: real)
    ensures age - 30.0 * ((age / 30.0).Floor as real) < 6.0
            <==> exists n: int :: InWindow(age, n)
  {
    var f := (age / 30.0).Floor;
    assert 30.0 * f as real <= age < 30.0 * (f + 1) as real;
    if n: int :| InWindow(age, n) {
      assert n == f;
    }
    if age - 30.0 * f as real < 6.0 {
      assert InWindow(age, f);
    }
  }

  /** Exactly who may hold back new admissions: a heavy waiter that has aged and does not fit,
      while some finite job runs. */
  lemma DrainsExactly(jobs: seq<Job>, h: Host, v: View, job: Job)
    ensures Drains(jobs, h, v, job) <==>
      && job in jobs && job.status == Waiting && !IsSmall(job) && !Fits(jobs, h, v, job)
      && (exists n: int :: Aged(v, job, n)) && exists r :: r in jobs && r.status == Running && r.resource.None?
  {
    LaneExactly(job);
    WindowExactly(v.now - Since(v, job));
    if !v.strict && DrainWindow(v, Age(v, job)) && Age(v, job) >= 60.0 {
      var n: int :| InWindow(Age(v, job), n);
      assert Aged(v, job, n);
    }
    assert v.strict && Age(v, job) >= 60.0 ==> Aged(v, job, 0);
    assert (exists r :: r in jobs && r.RunningFinite())
      <==> exists r :: r in jobs && r.status == Running && r.resource.None?;
  }

  /** Of several the longest unserved and longest waiting does. */
  lemma DrainComesFirst(jobs: seq<Job>, h: Host, v: View, chosen: Job, d: Job)
    requires LeadsDrain(jobs, h, v, chosen) && Drains(jobs, h, v, d) && d != chosen
    ensures ByAge(v, chosen, d)
  {
    ByAgeExactly(v, chosen, d);
  }
}
