/** What every run of the protocol keeps true of the stored registry, entry by entry
    (libexec/scheduler.py). */
module RegistrySafety {
  import opened Common
  import opened Jobs
  import opened Registry
  import opened Protocol
  import Decisions
  import Ownership
  import WorkloadMembers

  lemma {:induction false} CountsIds(jobs: seq<Job>, i: nat, k: nat)
    requires i < k < |jobs| && jobs[i].id == jobs[k].id
    ensures IdCount(jobs, jobs[i].id) >= 2
  {
    IdsDiffer(jobs, i, k);
  }

  lemma {:induction false} CountsOne(jobs: seq<Job>, i: nat, r: Token)
    requires i < |jobs| && jobs[i].status == Running && jobs[i].resource == Some(r)
    ensures RunningCount(jobs, Some(r)) >= 1
    decreases |jobs|
  {
    if i < |jobs| - 1 {
      CountsOne(jobs[..|jobs| - 1], i, r);
    }
  }

  lemma {:induction false} CountsTwo(jobs: seq<Job>, i: nat, k: nat, r: Token)
    requires i < k < |jobs| && jobs[i].status == Running && jobs[i].resource == Some(r)
    requires jobs[k].status == Running && jobs[k].resource == Some(r)
    ensures RunningCount(jobs, Some(r)) >= 2
    decreases |jobs|
  {
    if k < |jobs| - 1 {
      CountsTwo(jobs[..|jobs| - 1], i, k, r);
    } else {
      CountsOne(jobs[..|jobs| - 1], i, r);
    }
  }

  predicate Distinct(jobs: seq<Job>) { forall i, k :: 0 <= i < k < |jobs| ==> jobs[i].id != jobs[k].id }

  predicate OnePerResource(jobs: seq<Job>) {
    forall i, k :: 0 <= i < k < |jobs| && jobs[i].status == Running && jobs[k].status == Running ==>
      jobs[i].resource.None? || jobs[i].resource != jobs[k].resource
  }

  /** Entry k is the running one of a job, in a group. */
  predicate Runs(jobs: seq<Job>, k: int, id: Token, g: Pid) {
    0 <= k < |jobs| && jobs[k].id == id && jobs[k].status == Running && jobs[k].group == g
  }

  /** After every run, with crashes anywhere: no two stored entries have one id, no two running ones
      one resource, no more run without a resource than allowed, and each live process of a
      workload has its job stored as running in its group. */
  lemma StoredIsSafe(c: Config, run: seq<Step>)
    ensures var s := StateAfter(c, run);
      && Distinct(s.saved) && OnePerResource(s.saved) && Decisions.Unbound(s.saved) <= c.policy.maxJobs
      && forall p :: p in s.procs && s.procs[p].kind.Work? ==>
           exists k :: Runs(s.saved, k, s.procs[p].kind.job, s.procs[p].row.group)
  {
    RegistryIsSafe(c, run);
    var s := StateAfter(c, run);
    Decisions.UnboundExactly(s.saved);
    forall i, k | 0 <= i < k < |s.saved| ensures s.saved[i].id != s.saved[k].id {
      if s.saved[i].id == s.saved[k].id {
        CountsIds(s.saved, i, k);
      }
    }
    forall i, k | 0 <= i < k < |s.saved| && s.saved[i].status == Running && s.saved[k].status == Running
      ensures s.saved[i].resource.None? || s.saved[i].resource != s.saved[k].resource
    {
      if s.saved[i].resource.Some? && s.saved[i].resource == s.saved[k].resource {
        CountsTwo(s.saved, i, k, s.saved[i].resource.value);
      }
    }
    forall p | p in s.procs && s.procs[p].kind.Work?
      ensures exists k :: Runs(s.saved, k, s.procs[p].kind.job, s.procs[p].row.group)
    {
      var k :| 0 <= k < |s.saved| && IsRunning(s.saved[k], s.procs[p].kind.job, s.procs[p].row.group);
      assert Runs(s.saved, k, s.procs[p].kind.job, s.procs[p].row.group);
    }
  }

  // ---------------------------------------------------------------------- waiting

  function Queued(jobs: seq<Job>): nat {
    if jobs == [] then 0 else Queued(jobs[1..]) + if jobs[0].status == Status.Waiting then 1 else 0
  }

  lemma {:induction false} QueuedLast(jobs: seq<Job>)
    requires jobs != []
    ensures Queued(jobs) == Queued(jobs[..|jobs| - 1])
                            + if jobs[|jobs| - 1].status == Status.Waiting then 1 else 0
  {
    if |jobs| > 1 {
      QueuedLast(jobs[1..]);
      assert jobs[..|jobs| - 1][1..] == jobs[1..][..|jobs| - 2];
    }
  }

  lemma {:induction false} QueuedExactly(jobs: seq<Job>)
    ensures Protocol.Waiting(jobs) == Queued(jobs)
  {
    if jobs != [] {
      QueuedExactly(jobs[..|jobs| - 1]);
      QueuedLast(jobs);
    }
  }

  lemma QueuedMore(jobs: seq<Job>, job: Job)
    ensures Queued(jobs + [job]) == Queued(jobs) + if job.status == Status.Waiting then 1 else 0
  {
    QueuedLast(jobs + [job]);
    assert (jobs + [job])[..|jobs|] == jobs;
  }

  lemma {:induction false} RefreshQueuesNone(jobs: seq<Job>, table: Ownership.Table, uid: int, recovered: set<Token>)
    ensures Queued(Survivors(jobs, table, uid, recovered)) <= Queued(jobs)
  {
    if jobs != [] {
      var front, job := jobs[..|jobs| - 1], jobs[|jobs| - 1];
      var live := Survivors(front, table, uid, recovered);
      RefreshQueuesNone(front, table, uid, recovered);
      QueuedLast(jobs);
      QueuedMore(live, Renewed(job, table, uid, recovered));
      assert live + [] == live;
    }
  }

  lemma {:induction false} ShareQueuesNone(jobs: seq<Job>, holders: WorkloadMembers.Holders, table: Ownership.Table)
    ensures Queued(WorkloadMembers.Shared(jobs, holders, table)) == Queued(jobs)
  {
    if jobs != [] {
      var n := |jobs| - 1;
      ShareQueuesNone(jobs[..n], holders, table);
      QueuedLast(jobs);
      QueuedMore(WorkloadMembers.Shared(jobs[..n], holders, table),
                 WorkloadMembers.WithShare(jobs[n], holders, table, n));
    }
  }

  lemma {:induction false} WithoutQueuesNone(jobs: seq<Job>, id: Token)
    ensures Queued(Without(jobs, id)) <= Queued(jobs)
  {
    if jobs != [] {
      var front, job := jobs[..|jobs| - 1], jobs[|jobs| - 1];
      WithoutQueuesNone(front, id);
      QueuedLast(jobs);
      QueuedMore(Without(front, id), job);
      assert Without(front, id) + [] == Without(front, id);
    }
  }

  lemma {:induction false} SameQueued(a: seq<Job>, b: seq<Job>)
    requires SameEntries(a, b)
    ensures Queued(a) == Queued(b)
  {
    if a != [] {
      assert SameEntry(a[0], b[0]);
      assert forall k :: 0 <= k < |a| - 1 ==> a[1..][k] == a[k + 1] && b[1..][k] == b[k + 1];
      SameQueued(a[1..], b[1..]);
    }
  }

  lemma {:induction false} LaunchQueuesNone(jobs: seq<Job>, k: nat, job: Job)
    requires k < |jobs| && job.status == Running
    ensures Queued(jobs[k := job]) <= Queued(jobs)
  {
    if k == 0 {
      assert jobs[k := job][1..] == jobs[1..];
    } else {
      assert jobs[k := job][1..] == jobs[1..][k - 1 := job];
      LaunchQueuesNone(jobs[1..], k - 1, job);
    }
  }

  ghost predicate FewQueued(s: State) {
    Queued(s.saved) <= 64 && (s.holder.Some? ==> Queued(s.holder.value.work) <= 64)
  }

  lemma StepQueuesFew(c: Config, s: State, step: Step)
    requires FewQueued(s) && Enabled(c, s, step)
    ensures FewQueued(After(c, s, step))
  {
    match step
    case Refresh(recovered) =>
      var live := Survivors(s.holder.value.work, Rows(s.procs), c.uid, recovered);
      RefreshQueuesNone(s.holder.value.work, Rows(s.procs), c.uid, recovered);
      ShareQueuesNone(live, WorkloadMembers.Attribution(live, Rows(s.procs), c.uid), Rows(s.procs));
    case Register(job) =>
      QueuedExactly(s.holder.value.work);
      QueuedMore(s.holder.value.work, job);
    case Amend(work) => SameQueued(s.holder.value.work, work);
    case Withdraw(id) => WithoutQueuesNone(s.holder.value.work, id);
    case Retire(id) => WithoutQueuesNone(s.holder.value.work, id);
    case List(k) =>
      var h := s.holder.value;
      LaunchQueuesNone(h.work, k, Started(h.work[k], h.phase.child, s.procs[h.phase.child].row.start));
    case _ =>
  }

  /** Nor do more than 64 entries ever wait, in the stored registry or in the lock holder's. */
  lemma {:induction false} StoredIsShort(c: Config, run: seq<Step>)
    ensures FewQueued(StateAfter(c, run))
  {
    if run != [] {
      StoredIsShort(c, run[..|run| - 1]);
      var before := StateAfter(c, run[..|run| - 1]);
      if Enabled(c, before, run[|run| - 1]) {
        StepQueuesFew(c, before, run[|run| - 1]);
      }
    }
  }

  // -------------------------------------------------------------------- progress

  lemma {:induction false} NoneExactly(jobs: seq<Job>, id: Token)
    ensures IdCount(jobs, id) == 0 <==> forall k :: 0 <= k < |jobs| ==> jobs[k].id != id
  {
    if jobs != [] {
      NoneExactly(jobs[..|jobs| - 1], id);
    }
  }

  /** The state after a step that can be taken. */
  ghost predicate Takes(c: Config, s: State, step: Step, next: State) {
    Enabled(c, s, step) && next == After(c, s, step)
  }

  /** Whoever finds the lock free, fewer than 64 waiting and no entry with its id can join the queue. */
  lemma JoiningWorks(c: Config, s: State, pid: Pid, row: Ownership.Row, job: Job, recovered: set<Token>)
    returns (begun: State, locked: State, renewed: State, joined: State)
    requires s.holder == None && pid !in s.procs && pid >= 1 && row.start == s.births
    requires job.status == Status.Waiting && job.owner == pid && job.ownerStart == s.births
    requires Queued(s.saved) < 64 && forall k :: 0 <= k < |s.saved| ==> s.saved[k].id != job.id
    ensures Takes(c, s, Begin(pid, row), begun) && Takes(c, begun, Lock(pid), locked)
    ensures Takes(c, locked, Refresh(recovered), renewed) && Takes(c, renewed, Register(job), joined)
    ensures joined.holder.Some? && job in joined.holder.value.work
  {
    begun := After(c, s, Begin(pid, row));
    locked := After(c, begun, Lock(pid));
    renewed := After(c, locked, Refresh(recovered));
    var work := renewed.holder.value.work;
    var live := Survivors(s.saved, Rows(locked.procs), c.uid, recovered);
    RefreshQueuesNone(s.saved, Rows(locked.procs), c.uid, recovered);
    ShareQueuesNone(live, WorkloadMembers.Attribution(live, Rows(locked.procs), c.uid), Rows(locked.procs));
    QueuedExactly(work);
    NoneExactly(s.saved, job.id);
    RefreshLowersCounts(s.saved, Rows(locked.procs), c.uid, recovered, None, job.id);
    joined := After(c, renewed, Register(job));
  }

  /** And whoever is admitted can launch: its child is listed, stored, permitted and becomes the
      workload of its job, in a group of its own. */
  lemma LaunchingWorks(c: Config, s: State, spawn: Step)
    returns (spawned: State, listed: State, stored: State, granted: State, running: State)
    requires spawn.Spawn? && Enabled(c, s, spawn)
    ensures Takes(c, s, spawn, spawned) && Takes(c, spawned, List(spawn.k), listed)
    ensures Takes(c, listed, Store, stored) && Takes(c, stored, Grant, granted)
    ensures Takes(c, granted, Exec(spawn.child), running)
    ensures var id := s.holder.value.work[spawn.k].id;
      && spawn.child in running.procs && running.procs[spawn.child].kind == Work(id)
      && running.procs[spawn.child].row.group == spawn.child && Runs(running.saved, spawn.k, id, spawn.child)
  {
    spawned := After(c, s, spawn);
    listed := After(c, spawned, List(spawn.k));
    stored := After(c, listed, Store);
    granted := After(c, stored, Grant);
    running := After(c, granted, Exec(spawn.child));
  }
}
