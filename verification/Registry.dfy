/** The shared registry and its refresh (libexec/scheduler.py): which entries survive, what
    that does to the counts that admission rests on, and whose memory each of them is charged. */
module Registry {
  import opened Common
  import opened Jobs
  import opened Ownership
  import opened WorkloadMembers
  import Admission

  // -------------------------------------------------------------------- refresh

  predicate OwnerAlive(job: Job, table: Table) { job.owner in table && table[job.owner].start == job.ownerStart }

  /** The live processes of a job's group that belong to this user. */
  function GroupMembers(job: Job, table: Table, uid: int): map<Pid, Start> {
    map p | p in table && job.group != 0 && table[p].group == job.group && table[p].uid == uid :: table[p].start
  }

  predicate Stays(job: Job, table: Table, uid: int) {
    OwnerAlive(job, table) || (job.status == Running && GroupMembers(job, table, uid) != map[])
  }

  /** An entry as a refresh leaves it; `recovered` holds the ids whose orphan lease stands. */
  function Renewed(job: Job, table: Table, uid: int, recovered: set<Token>): Job {
    if job.status == Waiting then job
    else
      var alive := OwnerAlive(job, table);
      job.(members := if alive then GroupMembers(job, table, uid) else job.members,
           allowance := job.allowance.(orphaned := !alive, recoveryActive := !alive && job.id in recovered))
  }

  function Survivors(jobs: seq<Job>, table: Table, uid: int, recovered: set<Token>): seq<Job> {
    if jobs == [] then []
    else
      var job := jobs[|jobs| - 1];
      Survivors(jobs[..|jobs| - 1], table, uid, recovered)
      + if Stays(job, table, uid) then [Renewed(job, table, uid, recovered)] else []
  }

  /** The survivors, their memory attributed anew. */
  function Refreshed(jobs: seq<Job>, table: Table, uid: int, recovered: set<Token>): seq<Job> {
    Attributed(Survivors(jobs, table, uid, recovered), table, uid)
  }

  /** The value of footprint_members is what an allowance holds as its footprint, so storing it
      before the members change leaves the entry as it is here. */
  method Refresh(jobs: seq<Job>, table: Table, uid: int, recovered: set<Token>) returns (live: seq<Job>)
    ensures live == Refreshed(jobs, table, uid, recovered)
  {
    live := [];
    for k := 0 to |jobs|
      invariant live == Survivors(jobs[..k], table, uid, recovered)
    {
      var job := jobs[k];
      assert jobs[..k + 1][..k] == jobs[..k];
      var alive := OwnerAlive(job, table);
      var members := GroupMembers(job, table, uid);
      if job.status == Waiting {
        if alive {
          live := live + [job];
        }
      } else if alive || members != map[] {
        if alive {
          job := job.(members := members);
        }
        job := job.(allowance := job.allowance.(orphaned := !alive, recoveryActive := !alive && job.id in recovered));
        live := live + [job];
      }
    }
    assert jobs[..|jobs|] == jobs;
    live := RefreshFootprints(live, table, uid);
  }

  // --------------------------------------------------------------------- counts

  /** Running entries with a given resource; without one, the finite jobs. */
  function RunningCount(jobs: seq<Job>, resource: Option<Token>): nat {
    if jobs == [] then 0
    else
      var job := jobs[|jobs| - 1];
      RunningCount(jobs[..|jobs| - 1], resource) + if job.status == Running && job.resource == resource then 1 else 0
  }

  function IdCount(jobs: seq<Job>, id: Token): nat {
    if jobs == [] then 0 else IdCount(jobs[..|jobs| - 1], id) + if jobs[|jobs| - 1].id == id then 1 else 0
  }

  lemma {:induction false} FiniteIsRunningWithout(jobs: seq<Job>)
    ensures FiniteCount(jobs) == RunningCount(jobs, None)
  {
    if jobs != [] {
      FiniteIsRunningWithout(jobs[..|jobs| - 1]);
    }
  }

  lemma CountOneMore(jobs: seq<Job>, job: Job, resource: Option<Token>, id: Token)
    ensures RunningCount(jobs + [job], resource)
      == RunningCount(jobs, resource) + if job.status == Running && job.resource == resource then 1 else 0
    ensures IdCount(jobs + [job], id) == IdCount(jobs, id) + if job.id == id then 1 else 0
  {
    assert (jobs + [job])[..|jobs|] == jobs;
  }

  /** Job id runs as the process group g. */
  ghost predicate Lists(jobs: seq<Job>, id: Token, g: Pid) {
    exists k :: 0 <= k < |jobs| && IsRunning(jobs[k], id, g)
  }

  predicate IsRunning(job: Job, id: Token, g: Pid) { job.id == id && job.status == Running && job.group == g }

  lemma ListsOneMore(jobs: seq<Job>, job: Job, id: Token, g: Pid)
    ensures Lists(jobs + [job], id, g) <==> Lists(jobs, id, g) || IsRunning(job, id, g)
  {
    var all := jobs + [job];
    if Lists(jobs, id, g) {
      var k :| 0 <= k < |jobs| && IsRunning(jobs[k], id, g);
      assert all[k] == jobs[k];
    }
    if IsRunning(job, id, g) {
      assert all[|jobs|] == job;
    }
  }

  lemma ListsSplit(jobs: seq<Job>, id: Token, g: Pid)
    requires jobs != []
    ensures Lists(jobs, id, g) <==> Lists(jobs[..|jobs| - 1], id, g) || IsRunning(jobs[|jobs| - 1], id, g)
  {
    assert jobs == jobs[..|jobs| - 1] + [jobs[|jobs| - 1]];
    ListsOneMore(jobs[..|jobs| - 1], jobs[|jobs| - 1], id, g);
  }

  // ------------------------------------------------------------ what a refresh keeps

  /** Attribution changes no count and no listing. */
  lemma {:induction false} SharedKeeps(jobs: seq<Job>, holders: Holders, table: Table, resource: Option<Token>,
                                       id: Token, g: Pid)
    ensures RunningCount(Shared(jobs, holders, table), resource) == RunningCount(jobs, resource)
    ensures IdCount(Shared(jobs, holders, table), id) == IdCount(jobs, id)
    ensures Lists(Shared(jobs, holders, table), id, g) <==> Lists(jobs, id, g)
  {
    if jobs != [] {
      var n := |jobs| - 1;
      var front := Shared(jobs[..n], holders, table);
      SharedKeeps(jobs[..n], holders, table, resource, id, g);
      CountOneMore(front, WithShare(jobs[n], holders, table, n), resource, id);
      ListsOneMore(front, WithShare(jobs[n], holders, table, n), id, g);
      ListsSplit(jobs, id, g);
    }
  }

  lemma {:induction false} SurvivorsLowerCounts(jobs: seq<Job>, table: Table, uid: int, recovered: set<Token>,
                                                resource: Option<Token>, id: Token)
    ensures RunningCount(Survivors(jobs, table, uid, recovered), resource) <= RunningCount(jobs, resource)
    ensures IdCount(Survivors(jobs, table, uid, recovered), id) <= IdCount(jobs, id)
  {
    if jobs != [] {
      var front, job := jobs[..|jobs| - 1], jobs[|jobs| - 1];
      SurvivorsLowerCounts(front, table, uid, recovered, resource, id);
      CountOneMore(Survivors(front, table, uid, recovered), Renewed(job, table, uid, recovered), resource, id);
      assert Survivors(front, table, uid, recovered) + [] == Survivors(front, table, uid, recovered);
    }
  }

  /** A refresh never raises a count. */
  lemma RefreshLowersCounts(jobs: seq<Job>, table: Table, uid: int, recovered: set<Token>, resource: Option<Token>,
                            id: Token)
    ensures RunningCount(Refreshed(jobs, table, uid, recovered), resource) <= RunningCount(jobs, resource)
    ensures IdCount(Refreshed(jobs, table, uid, recovered), id) <= IdCount(jobs, id)
  {
    var live := Survivors(jobs, table, uid, recovered);
    SurvivorsLowerCounts(jobs, table, uid, recovered, resource, id);
    SharedKeeps(live, Attribution(live, table, uid), table, resource, id, 0);
  }

  lemma {:induction false} LiveSurvives(jobs: seq<Job>, table: Table, uid: int, recovered: set<Token>,
                                        id: Token, g: Pid, p: Pid)
    requires Lists(jobs, id, g) && g != 0 && p in table && table[p].group == g && table[p].uid == uid
    ensures Lists(Survivors(jobs, table, uid, recovered), id, g)
  {
    var front, job := jobs[..|jobs| - 1], jobs[|jobs| - 1];
    var live := Survivors(front, table, uid, recovered);
    ListsSplit(jobs, id, g);
    ListsOneMore(live, Renewed(job, table, uid, recovered), id, g);
    assert live + [] == live;
    if IsRunning(job, id, g) {
      assert p in GroupMembers(job, table, uid);
    } else {
      LiveSurvives(front, table, uid, recovered, id, g, p);
    }
  }

  /** A running job with a live process in its group survives every refresh, running in that
      group, whether or not its supervisor does. */
  lemma RefreshKeepsLive(jobs: seq<Job>, table: Table, uid: int, recovered: set<Token>, id: Token, g: Pid, p: Pid)
    requires Lists(jobs, id, g) && g != 0 && p in table && table[p].group == g && table[p].uid == uid
    ensures Lists(Refreshed(jobs, table, uid, recovered), id, g)
  {
    var live := Survivors(jobs, table, uid, recovered);
    LiveSurvives(jobs, table, uid, recovered, id, g, p);
    SharedKeeps(live, Attribution(live, table, uid), table, None, id, g);
  }

  lemma {:induction false} OnlyLiveSurvive(jobs: seq<Job>, table: Table, uid: int, recovered: set<Token>, k: nat)
    returns (i: nat)
    requires k < |Survivors(jobs, table, uid, recovered)|
    ensures i < |jobs| && Stays(jobs[i], table, uid)
    ensures Survivors(jobs, table, uid, recovered)[k] == Renewed(jobs[i], table, uid, recovered)
  {
    var front, job := jobs[..|jobs| - 1], jobs[|jobs| - 1];
    var live := Survivors(front, table, uid, recovered);
    if k < |live| {
      i := OnlyLiveSurvive(front, table, uid, recovered, k);
    } else {
      i := |jobs| - 1;
    }
  }

  /** The same entry, but for what it is charged. */
  predicate SameButFootprint(a: Job, b: Job) {
    a == b.(allowance := b.allowance.(footprint := a.allowance.footprint))
  }

  /** What a refresh leaves of an entry that stays. */
  predicate IsRenewal(after: Job, before: Job, table: Table, uid: int, recovered: set<Token>) {
    Stays(before, table, uid) && SameButFootprint(after, Renewed(before, table, uid, recovered))
  }

  /** Nothing is kept for another reason: what runs after a refresh ran before, and its owner
      lives or its group does. */
  lemma RefreshKeepsOnlyLive(jobs: seq<Job>, table: Table, uid: int, recovered: set<Token>, k: nat)
    requires k < |Refreshed(jobs, table, uid, recovered)|
    ensures var job := Refreshed(jobs, table, uid, recovered)[k];
      && (exists i :: 0 <= i < |jobs| && IsRenewal(job, jobs[i], table, uid, recovered))
      && (job.status == Running && OwnerAlive(job, table) ==> job.members == GroupMembers(job, table, uid))
  {
    var live := Survivors(jobs, table, uid, recovered);
    SharedLength(live, Attribution(live, table, uid), table);
    SharedAt(live, Attribution(live, table, uid), table, k);
    var i := OnlyLiveSurvive(jobs, table, uid, recovered, k);
    assert IsRenewal(Refreshed(jobs, table, uid, recovered)[k], jobs[i], table, uid, recovered);
  }

  /** Whether the supervisor that stored an entry is still there. */
  predicate Supervised(job: Job, table: Table) { job.owner in table && table[job.owner].start == job.ownerStart }

  predicate InGroup(job: Job, table: Table, uid: int, p: Pid) {
    job.group != 0 && p in table && table[p].group == job.group && table[p].uid == uid
  }

  /** A running entry is marked orphaned exactly if its supervisor is gone, and recovering
      exactly if, moreover, its lease stands; under a supervisor its members are the live
      processes of its group, and otherwise as they were. All else stays but what it is charged. */
  lemma MarksExactly(jobs: seq<Job>, table: Table, uid: int, recovered: set<Token>, k: nat)
    returns (i: nat)
    requires k < |Refreshed(jobs, table, uid, recovered)| && Refreshed(jobs, table, uid, recovered)[k].status == Running
    ensures i < |jobs| && jobs[i].status == Running
    ensures var before, after := jobs[i], Refreshed(jobs, table, uid, recovered)[k];
      && (after.allowance.orphaned <==> !Supervised(before, table))
      && (after.allowance.recoveryActive <==> !Supervised(before, table) && before.id in recovered)
      && (!Supervised(before, table) ==> after.members == before.members)
      && (Supervised(before, table) ==>
            && (forall p :: p in after.members <==> InGroup(before, table, uid, p))
            && (forall p :: p in after.members ==> p in table && after.members[p] == table[p].start))
      && (Supervised(before, table) || exists p :: InGroup(before, table, uid, p))
      && after == before.(members := after.members,
           allowance := before.allowance.(orphaned := after.allowance.orphaned,
             recoveryActive := after.allowance.recoveryActive, footprint := after.allowance.footprint))
  {
    var live := Survivors(jobs, table, uid, recovered);
    SharedLength(live, Attribution(live, table, uid), table);
    SharedAt(live, Attribution(live, table, uid), table, k);
    i := OnlyLiveSurvive(jobs, table, uid, recovered, k);
    if !Supervised(jobs[i], table) {
      var members := GroupMembers(jobs[i], table, uid);
      assert members.Keys != {};
      var p := Pick(members.Keys);
      assert InGroup(jobs[i], table, uid, p);
    }
  }

  /** And an entry stays if it should. */
  lemma {:induction false} StaysExactly(jobs: seq<Job>, table: Table, uid: int, recovered: set<Token>, i: nat)
    returns (k: nat)
    requires i < |jobs|
    requires Supervised(jobs[i], table)
          || (jobs[i].status == Running && exists p :: InGroup(jobs[i], table, uid, p))
    ensures k < |Survivors(jobs, table, uid, recovered)|
    ensures Survivors(jobs, table, uid, recovered)[k].id == jobs[i].id
    decreases |jobs|
  {
    var n := |jobs| - 1;
    if i < n {
      k := StaysExactly(jobs[..n], table, uid, recovered, i);
    } else {
      k := |Survivors(jobs[..n], table, uid, recovered)|;
      if p :| InGroup(jobs[i], table, uid, p) {
        assert p in GroupMembers(jobs[i], table, uid);
      }
    }
  }

  /** Whatever the registry was, a refresh leaves every process with at most one running job. */
  lemma RefreshedOnce(jobs: seq<Job>, table: Table, uid: int, recovered: set<Token>)
    ensures Admission.Disjoint(Refreshed(jobs, table, uid, recovered))
  {
    AttributedOnce(Survivors(jobs, table, uid, recovered), table, uid);
  }

  /** So the accounted total is exactly the jobs' whole allowances and the tracked memory that
      no job owns. */
  lemma RefreshedCountsOnce(s: Admission.Sample, jobs: seq<Job>, table: Table, uid: int, recovered: set<Token>)
    requires Admission.AllChargeable(s, Refreshed(jobs, table, uid, recovered))
    ensures Admission.Shortfall(s, Refreshed(jobs, table, uid, recovered)) == 0
  {
    RefreshedOnce(jobs, table, uid, recovered);
    Admission.DisjointClaimsOnce(s, Refreshed(jobs, table, uid, recovered));
    Admission.ChargeCountsEachByteOnce(s, Refreshed(jobs, table, uid, recovered));
  }
}
