/** Supervisors stepping one registry under a lock (run, launch and the exec gate of
    libexec/scheduler.py), each of which may be killed between any two steps. */
module Protocol {
  import opened Common
  import opened Jobs
  import opened Ownership
  import opened Registry
  import Admission

  // ---------------------------------------------------------------------- state

  /** The pipe a launched child waits on. It closes when its supervisor lets go of it. */
  datatype Pipe = Open | Granted | Closed

  /** What a process is: a queue supervisor, a child waiting to become a job's workload, part
      of that workload, or anything else. */
  datatype Kind = Supervisor | Gate(job: Token, pipe: Pipe) | Work(job: Token) | Other

  datatype Proc = Proc(row: Row, kind: Kind)

  type Procs = map<Pid, Proc>

  /** How far the lock holder has come; a child is named from its creation until its launch ends. */
  datatype Phase =
    | Loaded
    | Fresh
    | Spawned(id: Token, child: Pid)
    | Listed(id: Token, child: Pid)
    | Stored(id: Token, child: Pid)

  /** The supervisor inside the lock, with its copy of the registry. */
  datatype Holder = Holder(pid: Pid, phase: Phase, work: seq<Job>)

  /** The stored registry, the processes, and the lock. Starts are given out in order. */
  datatype State = State(saved: seq<Job>, procs: Procs, holder: Option<Holder>, births: Start)

  datatype Config = Config(uid: int, policy: Admission.Policy)

  const MAX_WAITING: nat := 64

  function Rows(procs: Procs): Table { map p | p in procs :: procs[p].row }

  const EMPTY: State := State([], map[], None, 1)

  // ---------------------------------------------------------------------- steps

  datatype Step =
    | Begin(pid: Pid, row: Row)
    | Lock(pid: Pid)
    | Refresh(recovered: set<Token>)
    | Register(job: Job)
    | Amend(work: seq<Job>)
    | Withdraw(id: Token)
    | Retire(id: Token)
    | Save
    | Spawn(k: nat, child: Pid, sample: Admission.Sample, controller: Admission.Controller, now: real)
    | List(k: nat)
    | Store
    | Grant
    | Unlock
    | Crash(pid: Pid)
    | Exec(child: Pid)
    | Reject(child: Pid)
    | Fork(parent: Pid, child: Pid)
    | Leave(pid: Pid)
    | Exit(pid: Pid)
    | Foreign(pid: Pid, row: Row)

  /** The child of a launch under way. */
  function ChildOf(phase: Phase): Option<Pid> {
    match phase
    case Spawned(_, c) => Some(c)
    case Listed(_, c) => Some(c)
    case Stored(_, c) => Some(c)
    case _ => None
  }

  /** The end of a launch closes a pipe that was not granted. */
  function Hung(procs: Procs, child: Option<Pid>): Procs {
    if child.Some? && child.value in procs && procs[child.value].kind.Gate? && procs[child.value].kind.pipe == Open
    then procs[child.value := procs[child.value].(kind := procs[child.value].kind.(pipe := Closed))]
    else procs
  }

  predicate Own(s: State, job: Job)
    requires s.holder.Some?
  {
    var pid := s.holder.value.pid;
    job.owner == pid && pid in s.procs && job.ownerStart == s.procs[pid].row.start
  }

  /** Amending leaves everything alone that identifies an entry, decides whether it runs, or
      says whose memory it is charged. */
  predicate SameEntry(a: Job, b: Job) {
    && a.id == b.id && a.status == b.status && a.resource == b.resource && a.group == b.group
    && a.members == b.members && a.owner == b.owner && a.ownerStart == b.ownerStart
    && a.allowance.footprint == b.allowance.footprint
  }

  predicate SameEntries(a: seq<Job>, b: seq<Job>) {
    |a| == |b| && forall k :: 0 <= k < |a| ==> SameEntry(a[k], b[k])
  }

  function Without(jobs: seq<Job>, id: Token): seq<Job> {
    if jobs == [] then []
    else
      var job := jobs[|jobs| - 1];
      Without(jobs[..|jobs| - 1], id) + if job.id == id then [] else [job]
  }

  function Waiting(jobs: seq<Job>): nat {
    if jobs == [] then 0 else Waiting(jobs[..|jobs| - 1]) + if jobs[|jobs| - 1].status == Status.Waiting then 1 else 0
  }

  /** The last check before a launch: the resource is free and the admission decision allows the request. */
  ghost predicate Admitted(c: Config, work: seq<Job>, job: Job, sample: Admission.Sample,
                           controller: Admission.Controller, now: real) {
    && (job.resource.Some? ==> RunningCount(work, job.resource) == 0)
    && Admission.Verdict(c.policy, sample, controller, now, work,
                         Admission.Request(job.allowance.memoryKb, job.resource)).allow
  }

  /** The entry of a launched job, charged for its child until the next refresh. */
  function Started(job: Job, child: Pid, start: Start): Job {
    job.(status := Running, group := child, members := map[child := start],
         allowance := job.allowance.(footprint := map[child := start]))
  }

  ghost predicate Inside(s: State, phase: Phase) { s.holder.Some? && s.holder.value.phase == phase }

  ghost predicate Enabled(c: Config, s: State, step: Step) {
    match step
    case Begin(pid, row) => pid !in s.procs && pid > 0 && row.start == s.births
    case Lock(pid) => s.holder == None && pid in s.procs && s.procs[pid].kind.Supervisor?
    case Refresh(_) => Inside(s, Loaded)
    case Register(job) => Inside(s, Fresh) && job.status == Status.Waiting && Own(s, job)
                          && IdCount(s.holder.value.work, job.id) == 0 && Waiting(s.holder.value.work) < MAX_WAITING
    case Amend(work) => Inside(s, Fresh) && SameEntries(s.holder.value.work, work)
    case Withdraw(id) =>
      Inside(s, Loaded) && forall k :: 0 <= k < |s.holder.value.work| && s.holder.value.work[k].id == id ==>
                           Own(s, s.holder.value.work[k]) && s.holder.value.work[k].status == Status.Waiting
    case Retire(id) =>
      Inside(s, Fresh) && forall k :: 0 <= k < |s.holder.value.work| && s.holder.value.work[k].id == id ==>
                         Own(s, s.holder.value.work[k]) && s.holder.value.work[k].members == map[]
    case Save => Inside(s, Fresh) || Inside(s, Loaded)
    case Spawn(k, child, sample, controller, now) =>
      && Inside(s, Fresh) && k < |s.holder.value.work| && child !in s.procs && child > 0
      && s.holder.value.work[k].status == Status.Waiting && Own(s, s.holder.value.work[k])
      && Admitted(c, s.holder.value.work, s.holder.value.work[k], sample, controller, now)
    case List(k) =>
      && s.holder.Some? && s.holder.value.phase.Spawned? && k < |s.holder.value.work|
      && s.holder.value.work[k].id == s.holder.value.phase.id && s.holder.value.phase.child in s.procs
    case Store => s.holder.Some? && s.holder.value.phase.Listed?
    case Grant => s.holder.Some? && s.holder.value.phase.Stored?
    case Unlock => s.holder.Some?
    case Crash(pid) => pid in s.procs && s.procs[pid].kind.Supervisor?
    case Exec(child) => child in s.procs && s.procs[child].kind.Gate? && s.procs[child].kind.pipe == Granted
    case Reject(child) => child in s.procs && s.procs[child].kind.Gate? && s.procs[child].kind.pipe == Closed
    case Fork(parent, child) =>
      parent in s.procs && (s.procs[parent].kind.Work? || s.procs[parent].kind.Other?)
      && child !in s.procs && child > 0
    case Leave(pid) => pid in s.procs && s.procs[pid].kind.Work?
    case Exit(pid) => pid in s.procs && !s.procs[pid].kind.Supervisor?
    case Foreign(pid, row) => pid !in s.procs && row.start == s.births
  }

  function Moved(s: State, phase: Phase, work: seq<Job>): State
    requires s.holder.Some?
  {
    s.(holder := Some(Holder(s.holder.value.pid, phase, work)))
  }

  function Born(s: State, pid: Pid, row: Row, kind: Kind): State {
    s.(procs := s.procs[pid := Proc(row.(start := s.births), kind)], births := s.births + 1)
  }

  function Released(s: State): State
    requires s.holder.Some?
  {
    s.(procs := Hung(s.procs, ChildOf(s.holder.value.phase)), holder := None)
  }

  ghost function After(c: Config, s: State, step: Step): State
    requires Enabled(c, s, step)
  {
    match step
    case Begin(pid, row) => Born(s, pid, row, Supervisor)
    case Lock(pid) => s.(holder := Some(Holder(pid, Loaded, s.saved)))
    case Refresh(recovered) => Moved(s, Fresh, Refreshed(s.holder.value.work, Rows(s.procs), c.uid, recovered))
    case Register(job) => Moved(s, Fresh, s.holder.value.work + [job])
    case Amend(work) => Moved(s, Fresh, work)
    case Withdraw(id) => Moved(s, Loaded, Without(s.holder.value.work, id))
    case Retire(id) => Moved(s, Fresh, Without(s.holder.value.work, id))
    case Save => s.(saved := s.holder.value.work)
    case Spawn(k, child, _, _, _) =>
      var job := s.holder.value.work[k];
      Moved(Born(s, child, Row(s.holder.value.pid, child, c.uid, s.births, job.id), Gate(job.id, Open)),
            Spawned(job.id, child), s.holder.value.work)
    case List(k) =>
      var h := s.holder.value;
      Moved(s, Listed(h.phase.id, h.phase.child),
            h.work[k := Started(h.work[k], h.phase.child, s.procs[h.phase.child].row.start)])
    case Store =>
      Moved(s.(saved := s.holder.value.work), Stored(s.holder.value.phase.id, s.holder.value.phase.child),
            s.holder.value.work)
    case Grant => Moved(s.(procs := Opened(s.procs, s.holder.value.phase.child)), Loaded, s.holder.value.work)
    case Unlock => Released(s)
    case Crash(pid) =>
      var freed := if s.holder.Some? && s.holder.value.pid == pid then Released(s) else s;
      freed.(procs := freed.procs - {pid})
    case Exec(child) => s.(procs := s.procs[child := s.procs[child].(kind := Work(s.procs[child].kind.job))])
    case Reject(child) => s.(procs := s.procs - {child})
    case Fork(parent, child) => Born(s, child, s.procs[parent].row.(ppid := parent), s.procs[parent].kind)
    case Leave(pid) => s.(procs := s.procs[pid := Proc(s.procs[pid].row.(group := pid), Other)])
    case Exit(pid) => s.(procs := s.procs - {pid})
    case Foreign(pid, row) => Born(s, pid, row, Other)
  }

  /** Permission reaches the child if it is still there. */
  function Opened(procs: Procs, child: Pid): Procs {
    if child in procs && procs[child].kind.Gate? && procs[child].kind.pipe == Open
    then procs[child := procs[child].(kind := procs[child].kind.(pipe := Granted))]
    else procs
  }

  // ------------------------------------------------------------------ invariant

  /** The job a process works for: part of its workload, or a child free to become it. */
  function JobOf(proc: Proc): Option<Token> {
    match proc.kind
    case Work(id) => Some(id)
    case Gate(id, Granted) => Some(id)
    case _ => None
  }

  ghost predicate Listing(c: Config, proc: Proc, jobs: seq<Job>)
    requires JobOf(proc).Some?
  {
    proc.row.uid == c.uid && proc.row.group != 0 && Lists(jobs, JobOf(proc).value, proc.row.group)
  }

  /** Every process of a workload belongs to a job listed as running in its group. */
  ghost predicate Covered(c: Config, procs: Procs, jobs: seq<Job>) {
    forall p :: p in procs && JobOf(procs[p]).Some? ==> Listing(c, procs[p], jobs)
  }

  ghost predicate Legal(c: Config, jobs: seq<Job>) {
    && RunningCount(jobs, None) <= c.policy.maxJobs
    && (forall r: Token :: RunningCount(jobs, Some(r)) <= 1)
    && (forall id :: IdCount(jobs, id) <= 1)
  }

  function IdOf(phase: Phase): Option<Token> {
    match phase
    case Spawned(id, _) => Some(id)
    case Listed(id, _) => Some(id)
    case Stored(id, _) => Some(id)
    case _ => None
  }

  /** A child on a pipe leads its own group; while nobody let go of the pipe it is the lock holder's. */
  predicate GateInPlace(c: Config, s: State, p: Pid)
    requires p in s.procs && s.procs[p].kind.Gate?
  {
    && s.procs[p].row.group == p && p > 0 && s.procs[p].row.uid == c.uid
    && (s.procs[p].kind.pipe == Open ==>
          && s.holder.Some? && ChildOf(s.holder.value.phase) == Some(p)
             && IdOf(s.holder.value.phase) == Some(s.procs[p].kind.job))
  }

  ghost predicate GatesInPlace(c: Config, s: State) {
    forall p :: p in s.procs && s.procs[p].kind.Gate? ==> GateInPlace(c, s, p)
  }

  ghost predicate NoneWorksFor(procs: Procs, id: Token) { forall p :: p in procs ==> JobOf(procs[p]) != Some(id) }

  /** Own entries without members have no live process. */
  ghost predicate MembersTrue(s: State) {
    s.holder.Some? && forall k :: 0 <= k < |s.holder.value.work| ==> MemberTrue(s, s.holder.value.work[k])
  }

  ghost predicate MemberTrue(s: State, job: Job)
    requires s.holder.Some?
  {
    job.status == Running && Own(s, job) && job.members == map[] ==> NoneWorksFor(s.procs, job.id)
  }

  /** There is room for the job about to be listed. */
  predicate Room(c: Config, work: seq<Job>, id: Token) {
    forall k :: 0 <= k < |work| && work[k].id == id ==> Fits(c, work, work[k])
  }

  predicate Fits(c: Config, work: seq<Job>, job: Job) {
    && job.status == Status.Waiting
    && (job.resource == None ==> RunningCount(work, None) < c.policy.maxJobs)
    && (job.resource.Some? ==> RunningCount(work, job.resource) == 0)
  }

  ghost predicate PhaseHolds(c: Config, s: State)
    requires s.holder.Some?
  {
    var h := s.holder.value;
    match h.phase
    case Loaded => true
    case Fresh => MembersTrue(s)
    case Spawned(id, child) => Room(c, h.work, id)
    case Listed(id, child) => Lists(h.work, id, child)
    case Stored(id, child) => Lists(h.work, id, child) && Lists(s.saved, id, child)
  }

  ghost predicate HolderHolds(c: Config, s: State)
    requires s.holder.Some?
  {
    var h := s.holder.value;
    && h.pid in s.procs && s.procs[h.pid].kind.Supervisor?
    && Legal(c, h.work) && Covered(c, s.procs, h.work) && PhaseHolds(c, s)
  }

  ghost predicate Inv(c: Config, s: State) {
    && Legal(c, s.saved) && Covered(c, s.procs, s.saved) && GatesInPlace(c, s)
    && (s.holder.Some? ==> HolderHolds(c, s))
  }

  // ------------------------------------------------------- steps of processes

  /** Whoever works for a job now took over from someone who did, in the same group. */
  ghost predicate Inherit(before: Procs, after: Procs) {
    forall p :: p in after && JobOf(after[p]).Some? ==> Heir(before, after[p])
  }

  ghost predicate Heir(before: Procs, proc: Proc) {
    exists q :: q in before && JobOf(before[q]) == JobOf(proc) && before[q].row.group == proc.row.group
        && before[q].row.uid == proc.row.uid
  }

  lemma CoveredInherits(c: Config, before: Procs, after: Procs, jobs: seq<Job>)
    requires Covered(c, before, jobs) && Inherit(before, after)
    ensures Covered(c, after, jobs)
  {
    forall p | p in after && JobOf(after[p]).Some? ensures Listing(c, after[p], jobs) {
      assert Heir(before, after[p]);
    }
  }

  lemma NoneInherits(before: Procs, after: Procs, id: Token)
    requires NoneWorksFor(before, id) && Inherit(before, after)
    ensures NoneWorksFor(after, id)
  {
    forall p | p in after ensures JobOf(after[p]) != Some(id) {
      assert JobOf(after[p]).Some? ==> Heir(before, after[p]);
    }
  }

  /** A step that changes processes only, and not the lock holder. */
  ghost predicate Quiet(s: State, after: State) {
    && after.saved == s.saved && after.holder == s.holder && Inherit(s.procs, after.procs)
    && (s.holder.Some? && s.holder.value.pid in s.procs ==>
          s.holder.value.pid in after.procs && after.procs[s.holder.value.pid] == s.procs[s.holder.value.pid])
  }

  lemma MembersStayTrue(s: State, after: State)
    requires Quiet(s, after) && s.holder.Some? && s.holder.value.pid in s.procs && MembersTrue(s)
    ensures MembersTrue(after)
  {
    forall k | 0 <= k < |after.holder.value.work| ensures MemberTrue(after, after.holder.value.work[k]) {
      var job := s.holder.value.work[k];
      assert MemberTrue(s, job);
      if NoneWorksFor(s.procs, job.id) {
        NoneInherits(s.procs, after.procs, job.id);
      }
    }
  }

  lemma QuietKeeps(c: Config, s: State, after: State)
    requires Inv(c, s) && Quiet(s, after) && GatesInPlace(c, after)
    ensures Inv(c, after)
  {
    CoveredInherits(c, s.procs, after.procs, s.saved);
    if s.holder.Some? {
      CoveredInherits(c, s.procs, after.procs, s.holder.value.work);
      if s.holder.value.phase.Fresh? {
        MembersStayTrue(s, after);
      }
    }
  }

  lemma BornIsQuiet(c: Config, s: State, pid: Pid, row: Row, kind: Kind, parent: Option<Pid>)
    requires Inv(c, s) && pid !in s.procs && !kind.Gate?
    requires JobOf(Proc(row, kind)).Some? ==>
      parent.Some? && parent.value in s.procs && s.procs[parent.value].kind == kind
      && s.procs[parent.value].row.group == row.group && s.procs[parent.value].row.uid == row.uid
    ensures Inv(c, Born(s, pid, row, kind))
  {
    var after := Born(s, pid, row, kind);
    forall p | p in after.procs && JobOf(after.procs[p]).Some? ensures Heir(s.procs, after.procs[p]) {
      var q := if p == pid then parent.value else p;
      assert q in s.procs && JobOf(s.procs[q]) == JobOf(after.procs[p]);
    }
    forall p | p in after.procs && after.procs[p].kind.Gate? ensures GateInPlace(c, after, p) {
      assert GateInPlace(c, s, p);
    }
    QuietKeeps(c, s, after);
  }

  lemma GoneIsQuiet(c: Config, s: State, pid: Pid)
    requires Inv(c, s) && (s.holder.Some? ==> pid != s.holder.value.pid)
    ensures Inv(c, s.(procs := s.procs - {pid}))
  {
    var after := s.(procs := s.procs - {pid});
    forall p | p in after.procs && JobOf(after.procs[p]).Some? ensures Heir(s.procs, after.procs[p]) {
      assert p in s.procs;
    }
    forall p | p in after.procs && after.procs[p].kind.Gate? ensures GateInPlace(c, after, p) {
      assert GateInPlace(c, s, p);
    }
    QuietKeeps(c, s, after);
  }

  lemma ExecKeeps(c: Config, s: State, child: Pid)
    requires Inv(c, s) && Enabled(c, s, Exec(child))
    ensures Inv(c, After(c, s, Exec(child)))
  {
    var after := After(c, s, Exec(child));
    forall p | p in after.procs && JobOf(after.procs[p]).Some? ensures Heir(s.procs, after.procs[p]) {
      assert p in s.procs && JobOf(s.procs[p]) == JobOf(after.procs[p]);
    }
    forall p | p in after.procs && after.procs[p].kind.Gate? ensures GateInPlace(c, after, p) {
      assert GateInPlace(c, s, p);
    }
    QuietKeeps(c, s, after);
  }

  lemma LeaveKeeps(c: Config, s: State, pid: Pid)
    requires Inv(c, s) && Enabled(c, s, Leave(pid))
    ensures Inv(c, After(c, s, Leave(pid)))
  {
    var after := After(c, s, Leave(pid));
    forall p | p in after.procs && JobOf(after.procs[p]).Some? ensures Heir(s.procs, after.procs[p]) {
      assert p in s.procs && JobOf(s.procs[p]) == JobOf(after.procs[p]);
    }
    forall p | p in after.procs && after.procs[p].kind.Gate? ensures GateInPlace(c, after, p) {
      assert GateInPlace(c, s, p);
    }
    QuietKeeps(c, s, after);
  }

  // -------------------------------------------------------- leaving the lock

  lemma HungInherits(procs: Procs, child: Option<Pid>)
    ensures Inherit(procs, Hung(procs, child)) && Hung(procs, child).Keys == procs.Keys
  {
    var after := Hung(procs, child);
    forall p | p in after && JobOf(after[p]).Some? ensures Heir(procs, after[p]) {
      assert p in procs && JobOf(procs[p]) == JobOf(after[p]);
    }
  }

  /** Letting go of the lock, by leaving it or by being killed, closes an ungranted pipe. */
  lemma ReleasedKeeps(c: Config, s: State)
    requires Inv(c, s) && s.holder.Some?
    ensures Inv(c, Released(s)) && Released(s).holder == None && Released(s).saved == s.saved
      && Released(s).procs.Keys == s.procs.Keys
  {
    var child := ChildOf(s.holder.value.phase);
    var after := Released(s);
    HungInherits(s.procs, child);
    CoveredInherits(c, s.procs, after.procs, s.saved);
    forall p | p in after.procs && after.procs[p].kind.Gate? ensures GateInPlace(c, after, p) {
      assert GateInPlace(c, s, p);
    }
  }

  lemma CrashKeeps(c: Config, s: State, pid: Pid)
    requires Inv(c, s) && Enabled(c, s, Crash(pid))
    ensures Inv(c, After(c, s, Crash(pid)))
  {
    if s.holder.Some? && s.holder.value.pid == pid {
      ReleasedKeeps(c, s);
      GoneIsQuiet(c, Released(s), pid);
    } else {
      GoneIsQuiet(c, s, pid);
    }
  }

  // -------------------------------------------------------- steps of the holder

  /** A step of the lock holder that touches neither the processes nor the stored registry. */
  lemma MovedKeeps(c: Config, s: State, phase: Phase, work: seq<Job>)
    requires Inv(c, s) && s.holder.Some? && Legal(c, work) && Covered(c, s.procs, work)
    requires PhaseHolds(c, Moved(s, phase, work))
    requires ChildOf(phase) == ChildOf(s.holder.value.phase) && IdOf(phase) == IdOf(s.holder.value.phase)
    ensures Inv(c, Moved(s, phase, work))
  {
    var after := Moved(s, phase, work);
    forall p | p in after.procs && after.procs[p].kind.Gate? ensures GateInPlace(c, after, p) {
      assert GateInPlace(c, s, p);
    }
  }

  lemma LockKeeps(c: Config, s: State, pid: Pid)
    requires Inv(c, s) && Enabled(c, s, Lock(pid))
    ensures Inv(c, After(c, s, Lock(pid)))
  {
    var after := After(c, s, Lock(pid));
    forall p | p in after.procs && after.procs[p].kind.Gate? ensures GateInPlace(c, after, p) {
      assert GateInPlace(c, s, p);
    }
  }

  /** A refresh drops no job with a live process. */
  lemma RefreshCovers(c: Config, procs: Procs, jobs: seq<Job>, recovered: set<Token>)
    requires Covered(c, procs, jobs)
    ensures Covered(c, procs, Refreshed(jobs, Rows(procs), c.uid, recovered))
  {
    forall p | p in procs && JobOf(procs[p]).Some?
        ensures Listing(c, procs[p], Refreshed(jobs, Rows(procs), c.uid, recovered)) {
      assert Listing(c, procs[p], jobs);
      RefreshKeepsLive(jobs, Rows(procs), c.uid, recovered, JobOf(procs[p]).value, procs[p].row.group, p);
    }
  }

  lemma RefreshIsLegal(c: Config, jobs: seq<Job>, table: Table, recovered: set<Token>)
    requires Legal(c, jobs)
    ensures Legal(c, Refreshed(jobs, table, c.uid, recovered))
  {
    RefreshLowersCounts(jobs, table, c.uid, recovered, None, 0);
    forall r: Token ensures RunningCount(Refreshed(jobs, table, c.uid, recovered), Some(r)) <= 1 {
      RefreshLowersCounts(jobs, table, c.uid, recovered, Some(r), 0);
    }
    forall id ensures IdCount(Refreshed(jobs, table, c.uid, recovered), id) <= 1 {
      RefreshLowersCounts(jobs, table, c.uid, recovered, None, id);
    }
  }

  lemma {:induction false} IdsDiffer(jobs: seq<Job>, i: nat, k: nat)
    requires i < k < |jobs| && jobs[i].id == jobs[k].id
    ensures IdCount(jobs, jobs[i].id) >= 2
    decreases |jobs|
  {
    var front := jobs[..|jobs| - 1];
    if k < |front| {
      IdsDiffer(front, i, k);
    } else {
      IdOccurs(front, i);
    }
  }

  lemma {:induction false} IdOccurs(jobs: seq<Job>, i: nat)
    requires i < |jobs|
    ensures IdCount(jobs, jobs[i].id) >= 1
    decreases |jobs|
  {
    if i < |jobs| - 1 {
      IdOccurs(jobs[..|jobs| - 1], i);
    }
  }

  /** Under distinct ids, a job listed with an id is the entry with that id. */
  lemma ListedIsEntry(c: Config, jobs: seq<Job>, k: nat, g: Pid)
    requires Legal(c, jobs) && k < |jobs| && Lists(jobs, jobs[k].id, g)
    ensures IsRunning(jobs[k], jobs[k].id, g)
  {
    var i :| 0 <= i < |jobs| && IsRunning(jobs[i], jobs[k].id, g);
    if i < k {
      IdsDiffer(jobs, i, k);
    } else if k < i {
      IdsDiffer(jobs, k, i);
    }
  }

  /** After a refresh the recorded members are true: an own entry without any has no live process. */
  lemma RefreshedMember(c: Config, s: State, recovered: set<Token>, k: nat)
    requires Inv(c, s) && s.holder.Some?
    requires var work := Refreshed(s.holder.value.work, Rows(s.procs), c.uid, recovered);
      k < |work| && Legal(c, work) && Covered(c, s.procs, work)
    ensures MemberTrue(s, Refreshed(s.holder.value.work, Rows(s.procs), c.uid, recovered)[k])
  {
    var work := Refreshed(s.holder.value.work, Rows(s.procs), c.uid, recovered);
    var job := work[k];
    RefreshKeepsOnlyLive(s.holder.value.work, Rows(s.procs), c.uid, recovered, k);
    forall p | p in s.procs && JobOf(s.procs[p]) == Some(job.id) ensures p in GroupMembers(job, Rows(s.procs), c.uid) {
      assert Listing(c, s.procs[p], work);
      ListedIsEntry(c, work, k, s.procs[p].row.group);
    }
  }

  lemma RefreshKeeps(c: Config, s: State, recovered: set<Token>)
    requires Inv(c, s) && Enabled(c, s, Refresh(recovered))
    ensures Inv(c, After(c, s, Refresh(recovered)))
  {
    var work := Refreshed(s.holder.value.work, Rows(s.procs), c.uid, recovered);
    RefreshCovers(c, s.procs, s.holder.value.work, recovered);
    RefreshIsLegal(c, s.holder.value.work, Rows(s.procs), recovered);
    var after := Moved(s, Fresh, work);
    forall k | 0 <= k < |work| ensures MemberTrue(after, work[k]) {
      RefreshedMember(c, s, recovered, k);
    }
    MovedKeeps(c, s, Fresh, work);
  }

  // ------------------------------------------------------------ editing entries

  lemma CoversMore(c: Config, procs: Procs, jobs: seq<Job>, job: Job)
    requires Covered(c, procs, jobs)
    ensures Covered(c, procs, jobs + [job])
  {
    forall p | p in procs && JobOf(procs[p]).Some? ensures Listing(c, procs[p], jobs + [job]) {
      assert Listing(c, procs[p], jobs);
      ListsOneMore(jobs, job, JobOf(procs[p]).value, procs[p].row.group);
    }
  }

  lemma LegalMore(c: Config, jobs: seq<Job>, job: Job)
    requires Legal(c, jobs) && job.status == Status.Waiting && IdCount(jobs, job.id) == 0
    ensures Legal(c, jobs + [job])
  {
    CountOneMore(jobs, job, None, 0);
    forall r: Token ensures RunningCount(jobs + [job], Some(r)) <= 1 {
      CountOneMore(jobs, job, Some(r), 0);
    }
    forall id ensures IdCount(jobs + [job], id) <= 1 {
      CountOneMore(jobs, job, None, id);
    }
  }

  lemma RegisterKeeps(c: Config, s: State, job: Job)
    requires Inv(c, s) && Enabled(c, s, Register(job))
    ensures Inv(c, After(c, s, Register(job)))
  {
    var work := s.holder.value.work;
    CoversMore(c, s.procs, work, job);
    LegalMore(c, work, job);
    var after := Moved(s, Fresh, work + [job]);
    forall k | 0 <= k < |work + [job]| ensures MemberTrue(after, (work + [job])[k]) {
      assert k < |work| ==> MemberTrue(s, work[k]);
    }
    MovedKeeps(c, s, Fresh, work + [job]);
  }

  lemma {:induction false} SameCounts(a: seq<Job>, b: seq<Job>, resource: Option<Token>, id: Token)
    requires SameEntries(a, b)
    ensures RunningCount(a, resource) == RunningCount(b, resource) && IdCount(a, id) == IdCount(b, id)
  {
    if a != [] {
      assert SameEntry(a[|a| - 1], b[|b| - 1]);
      SameCounts(a[..|a| - 1], b[..|b| - 1], resource, id);
    }
  }

  lemma SameIsLegal(c: Config, a: seq<Job>, b: seq<Job>)
    requires Legal(c, a) && SameEntries(a, b)
    ensures Legal(c, b)
  {
    SameCounts(a, b, None, 0);
    forall r: Token ensures RunningCount(b, Some(r)) <= 1 {
      SameCounts(a, b, Some(r), 0);
    }
    forall id ensures IdCount(b, id) <= 1 {
      SameCounts(a, b, None, id);
    }
  }

  lemma SameLists(a: seq<Job>, b: seq<Job>, id: Token, g: Pid)
    requires SameEntries(a, b) && Lists(a, id, g)
    ensures Lists(b, id, g)
  {
    var k :| 0 <= k < |a| && IsRunning(a[k], id, g);
    assert SameEntry(a[k], b[k]) && IsRunning(b[k], id, g);
  }

  lemma SameCovers(c: Config, procs: Procs, a: seq<Job>, b: seq<Job>)
    requires Covered(c, procs, a) && SameEntries(a, b)
    ensures Covered(c, procs, b)
  {
    forall p | p in procs && JobOf(procs[p]).Some? ensures Listing(c, procs[p], b) {
      assert Listing(c, procs[p], a);
      SameLists(a, b, JobOf(procs[p]).value, procs[p].row.group);
    }
  }

  lemma AmendKeeps(c: Config, s: State, work: seq<Job>)
    requires Inv(c, s) && Enabled(c, s, Amend(work))
    ensures Inv(c, After(c, s, Amend(work)))
  {
    var before := s.holder.value.work;
    SameIsLegal(c, before, work);
    SameCovers(c, s.procs, before, work);
    var after := Moved(s, Fresh, work);
    forall k | 0 <= k < |work| ensures MemberTrue(after, work[k]) {
      assert SameEntry(before[k], work[k]) && MemberTrue(s, before[k]);
    }
    MovedKeeps(c, s, Fresh, work);
  }

  lemma {:induction false} WithoutLowersCounts(jobs: seq<Job>, gone: Token, resource: Option<Token>, id: Token)
    ensures RunningCount(Without(jobs, gone), resource) <= RunningCount(jobs, resource)
    ensures IdCount(Without(jobs, gone), id) <= IdCount(jobs, id)
  {
    if jobs != [] {
      var front, job := jobs[..|jobs| - 1], jobs[|jobs| - 1];
      WithoutLowersCounts(front, gone, resource, id);
      CountOneMore(Without(front, gone), job, resource, id);
      assert Without(front, gone) + [] == Without(front, gone);
    }
  }

  lemma WithoutIsLegal(c: Config, jobs: seq<Job>, gone: Token)
    requires Legal(c, jobs)
    ensures Legal(c, Without(jobs, gone))
  {
    WithoutLowersCounts(jobs, gone, None, 0);
    forall r: Token ensures RunningCount(Without(jobs, gone), Some(r)) <= 1 {
      WithoutLowersCounts(jobs, gone, Some(r), 0);
    }
    forall id ensures IdCount(Without(jobs, gone), id) <= 1 {
      WithoutLowersCounts(jobs, gone, None, id);
    }
  }

  lemma {:induction false} WithoutLists(jobs: seq<Job>, gone: Token, id: Token, g: Pid)
    requires Lists(jobs, id, g) && id != gone
    ensures Lists(Without(jobs, gone), id, g)
  {
    var front, job := jobs[..|jobs| - 1], jobs[|jobs| - 1];
    ListsSplit(jobs, id, g);
    ListsOneMore(Without(front, gone), job, id, g);
    assert Without(front, gone) + [] == Without(front, gone);
    if !IsRunning(job, id, g) {
      WithoutLists(front, gone, id, g);
    }
  }

  lemma {:induction false} WithoutIsSubset(jobs: seq<Job>, gone: Token, k: nat) returns (i: nat)
    requires k < |Without(jobs, gone)|
    ensures i < |jobs| && Without(jobs, gone)[k] == jobs[i]
  {
    var front := jobs[..|jobs| - 1];
    if k < |Without(front, gone)| {
      i := WithoutIsSubset(front, gone, k);
    } else {
      i := |jobs| - 1;
    }
  }

  lemma WithoutCovers(c: Config, procs: Procs, jobs: seq<Job>, gone: Token)
    requires Covered(c, procs, jobs) && NoneWorksFor(procs, gone)
    ensures Covered(c, procs, Without(jobs, gone))
  {
    forall p | p in procs && JobOf(procs[p]).Some? ensures Listing(c, procs[p], Without(jobs, gone)) {
      assert Listing(c, procs[p], jobs);
      WithoutLists(jobs, gone, JobOf(procs[p]).value, procs[p].row.group);
    }
  }

  /** An entry that waits, or whose recorded members are none, has no live process. */
  lemma NoneToLose(c: Config, s: State, id: Token)
    requires Inv(c, s) && s.holder.Some?
    requires forall k :: 0 <= k < |s.holder.value.work| && s.holder.value.work[k].id == id ==>
      s.holder.value.work[k].status == Status.Waiting || NoneWorksFor(s.procs, id)
    ensures NoneWorksFor(s.procs, id)
  {
    var work := s.holder.value.work;
    forall p | p in s.procs ensures JobOf(s.procs[p]) != Some(id) {
      assert JobOf(s.procs[p]).Some? ==> Listing(c, s.procs[p], work);
    }
  }

  lemma WithdrawKeeps(c: Config, s: State, id: Token)
    requires Inv(c, s) && Enabled(c, s, Withdraw(id))
    ensures Inv(c, After(c, s, Withdraw(id)))
  {
    var work := s.holder.value.work;
    NoneToLose(c, s, id);
    WithoutCovers(c, s.procs, work, id);
    WithoutIsLegal(c, work, id);
    MovedKeeps(c, s, Loaded, Without(work, id));
  }

  lemma RetireKeeps(c: Config, s: State, id: Token)
    requires Inv(c, s) && Enabled(c, s, Retire(id))
    ensures Inv(c, After(c, s, Retire(id)))
  {
    var work := s.holder.value.work;
    forall k | 0 <= k < |work| && work[k].id == id
        ensures work[k].status == Status.Waiting || NoneWorksFor(s.procs, id) {
      assert MemberTrue(s, work[k]);
    }
    NoneToLose(c, s, id);
    WithoutCovers(c, s.procs, work, id);
    WithoutIsLegal(c, work, id);
    var after := Moved(s, Fresh, Without(work, id));
    forall k | 0 <= k < |Without(work, id)| ensures MemberTrue(after, Without(work, id)[k]) {
      var i := WithoutIsSubset(work, id, k);
      assert MemberTrue(s, work[i]);
    }
    MovedKeeps(c, s, Fresh, Without(work, id));
  }

  lemma SaveKeeps(c: Config, s: State)
    requires Inv(c, s) && Enabled(c, s, Save)
    ensures Inv(c, After(c, s, Save))
  {
    var after := After(c, s, Save);
    forall p | p in after.procs && after.procs[p].kind.Gate? ensures GateInPlace(c, after, p) {
      assert GateInPlace(c, s, p);
    }
    if s.holder.value.phase.Fresh? {
      forall k | 0 <= k < |s.holder.value.work| ensures MemberTrue(after, s.holder.value.work[k]) {
        assert MemberTrue(s, s.holder.value.work[k]);
      }
    }
  }

  // ------------------------------------------------------------------- launching

  lemma SpawnHasRoom(c: Config, s: State, step: Step)
    requires Inv(c, s) && step.Spawn? && Enabled(c, s, step)
    ensures Room(c, s.holder.value.work, s.holder.value.work[step.k].id)
  {
    var work := s.holder.value.work;
    var job := work[step.k];
    var request := Admission.Request(job.allowance.memoryKb, job.resource);
    Admission.VerdictAllowsExactly(c.policy, step.sample, step.controller, step.now, work, request);
    FiniteIsRunningWithout(work);
    forall i | 0 <= i < |work| && work[i].id == job.id ensures work[i] == job {
      if i < step.k {
        IdsDiffer(work, i, step.k);
      } else if step.k < i {
        IdsDiffer(work, step.k, i);
      }
    }
  }

  lemma SpawnKeeps(c: Config, s: State, step: Step)
    requires Inv(c, s) && step.Spawn? && Enabled(c, s, step)
    ensures Inv(c, After(c, s, step))
  {
    SpawnHasRoom(c, s, step);
    var after := After(c, s, step);
    forall p | p in after.procs && JobOf(after.procs[p]).Some? ensures Heir(s.procs, after.procs[p]) {
      assert p in s.procs && JobOf(s.procs[p]) == JobOf(after.procs[p]);
    }
    CoveredInherits(c, s.procs, after.procs, s.saved);
    CoveredInherits(c, s.procs, after.procs, s.holder.value.work);
    forall p | p in after.procs && after.procs[p].kind.Gate? ensures GateInPlace(c, after, p) {
      assert p != step.child ==> GateInPlace(c, s, p);
    }
  }

  lemma {:induction false} UpdateCounts(jobs: seq<Job>, k: nat, job: Job, resource: Option<Token>, id: Token)
    requires k < |jobs| && jobs[k].status == Status.Waiting && job.status == Running && job.id == jobs[k].id
    ensures RunningCount(jobs[k := job], resource)
      == RunningCount(jobs, resource) + if job.resource == resource then 1 else 0
    ensures IdCount(jobs[k := job], id) == IdCount(jobs, id)
    decreases |jobs|
  {
    var n := |jobs| - 1;
    var next := jobs[k := job];
    if k < n {
      assert next[..n] == jobs[..n][k := job];
      UpdateCounts(jobs[..n], k, job, resource, id);
    } else {
      assert next[..n] == jobs[..n];
    }
  }

  lemma UpdateIsLegal(c: Config, jobs: seq<Job>, k: nat, job: Job)
    requires Legal(c, jobs) && k < |jobs| && Fits(c, jobs, jobs[k])
    requires job.status == Running && job.id == jobs[k].id && job.resource == jobs[k].resource
    ensures Legal(c, jobs[k := job])
  {
    var next := jobs[k := job];
    UpdateCounts(jobs, k, job, None, 0);
    forall r: Token ensures RunningCount(next, Some(r)) <= 1 {
      UpdateCounts(jobs, k, job, Some(r), 0);
    }
    forall id ensures IdCount(next, id) <= 1 {
      UpdateCounts(jobs, k, job, None, id);
    }
  }

  lemma UpdateLists(jobs: seq<Job>, k: nat, job: Job, id: Token, g: Pid)
    requires k < |jobs| && jobs[k].status == Status.Waiting && Lists(jobs, id, g)
    ensures Lists(jobs[k := job], id, g)
  {
    var i :| 0 <= i < |jobs| && IsRunning(jobs[i], id, g);
    assert jobs[k := job][i] == jobs[i];
  }

  lemma UpdateCovers(c: Config, procs: Procs, jobs: seq<Job>, k: nat, job: Job)
    requires Covered(c, procs, jobs) && k < |jobs| && jobs[k].status == Status.Waiting
    ensures Covered(c, procs, jobs[k := job])
  {
    forall p | p in procs && JobOf(procs[p]).Some? ensures Listing(c, procs[p], jobs[k := job]) {
      assert Listing(c, procs[p], jobs);
      UpdateLists(jobs, k, job, JobOf(procs[p]).value, procs[p].row.group);
    }
  }

  lemma ListKeeps(c: Config, s: State, k: nat)
    requires Inv(c, s) && Enabled(c, s, List(k))
    ensures Inv(c, After(c, s, List(k)))
  {
    var h := s.holder.value;
    var job := Started(h.work[k], h.phase.child, s.procs[h.phase.child].row.start);
    UpdateIsLegal(c, h.work, k, job);
    UpdateCovers(c, s.procs, h.work, k, job);
    assert IsRunning(h.work[k := job][k], h.phase.id, h.phase.child);
    MovedKeeps(c, s, Listed(h.phase.id, h.phase.child), h.work[k := job]);
  }

  lemma StoreKeeps(c: Config, s: State)
    requires Inv(c, s) && Enabled(c, s, Store)
    ensures Inv(c, After(c, s, Store))
  {
    var after := After(c, s, Store);
    forall p | p in after.procs && after.procs[p].kind.Gate? ensures GateInPlace(c, after, p) {
      assert GateInPlace(c, s, p);
    }
  }

  lemma GrantCovers(c: Config, s: State, jobs: seq<Job>)
    requires Inv(c, s) && Enabled(c, s, Grant) && Covered(c, s.procs, jobs)
    requires Lists(jobs, s.holder.value.phase.id, s.holder.value.phase.child)
    ensures Covered(c, Opened(s.procs, s.holder.value.phase.child), jobs)
  {
    var child := s.holder.value.phase.child;
    var procs := Opened(s.procs, child);
    forall p | p in procs && JobOf(procs[p]).Some? ensures Listing(c, procs[p], jobs) {
      if p == child && s.procs[p].kind.Gate? {
        assert GateInPlace(c, s, child);
      } else {
        assert Listing(c, s.procs[p], jobs);
      }
    }
  }

  lemma GrantKeeps(c: Config, s: State)
    requires Inv(c, s) && Enabled(c, s, Grant)
    ensures Inv(c, After(c, s, Grant))
  {
    var after := After(c, s, Grant);
    GrantCovers(c, s, s.saved);
    GrantCovers(c, s, s.holder.value.work);
    forall p | p in after.procs && after.procs[p].kind.Gate? ensures GateInPlace(c, after, p) {
      assert GateInPlace(c, s, p);
    }
  }

  // -------------------------------------------------------------------- every run

  /** Every step keeps the invariant, a crash anywhere included. */
  lemma {:induction false} StepKeeps(c: Config, s: State, step: Step)
    requires Inv(c, s) && Enabled(c, s, step)
    ensures Inv(c, After(c, s, step))
  {
    match step
    case Begin(pid, row) => BornIsQuiet(c, s, pid, row, Supervisor, None);
    case Lock(pid) => LockKeeps(c, s, pid);
    case Refresh(recovered) => RefreshKeeps(c, s, recovered);
    case Register(job) => RegisterKeeps(c, s, job);
    case Amend(work) => AmendKeeps(c, s, work);
    case Withdraw(id) => WithdrawKeeps(c, s, id);
    case Retire(id) => RetireKeeps(c, s, id);
    case Save => SaveKeeps(c, s);
    case Spawn(_, _, _, _, _) => SpawnKeeps(c, s, step);
    case List(k) => ListKeeps(c, s, k);
    case Store => StoreKeeps(c, s);
    case Grant => GrantKeeps(c, s);
    case Unlock => ReleasedKeeps(c, s);
    case Crash(pid) => CrashKeeps(c, s, pid);
    case Exec(child) => ExecKeeps(c, s, child);
    case Reject(child) => GoneIsQuiet(c, s, child);
    case Fork(parent, child) =>
      BornIsQuiet(c, s, child, s.procs[parent].row.(ppid := parent), s.procs[parent].kind, Some(parent));
    case Leave(pid) => LeaveKeeps(c, s, pid);
    case Exit(pid) => GoneIsQuiet(c, s, pid);
    case Foreign(pid, row) => BornIsQuiet(c, s, pid, row, Other, None);
  }

  /** The state after a run that starts with an empty registry; steps that cannot happen are skipped. */
  ghost function StateAfter(c: Config, run: seq<Step>): State {
    if run == [] then EMPTY
    else
      var before := StateAfter(c, run[..|run| - 1]);
      if Enabled(c, before, run[|run| - 1]) then After(c, before, run[|run| - 1]) else before
  }

  lemma {:induction false} RunKeeps(c: Config, run: seq<Step>)
    ensures Inv(c, StateAfter(c, run))
  {
    if run != [] {
      RunKeeps(c, run[..|run| - 1]);
      var before := StateAfter(c, run[..|run| - 1]);
      if Enabled(c, before, run[|run| - 1]) {
        StepKeeps(c, before, run[|run| - 1]);
      }
    }
  }

  /** Registry safety. Over every interleaving of supervisors, with any of them killed
      between any two steps: the stored registry never lists more running finite jobs than
      allowed, nor two running jobs on one resource, nor an id twice; and every live process
      of a workload belongs to a job that is stored as running in that process's group. */
  lemma RegistryIsSafe(c: Config, run: seq<Step>)
    ensures var s := StateAfter(c, run);
      && FiniteCount(s.saved) <= c.policy.maxJobs
      && (forall r: Token :: RunningCount(s.saved, Some(r)) <= 1)
      && (forall id :: IdCount(s.saved, id) <= 1)
      && (forall p :: p in s.procs && s.procs[p].kind.Work? ==>
          Lists(s.saved, s.procs[p].kind.job, s.procs[p].row.group))
  {
    RunKeeps(c, run);
    var s := StateAfter(c, run);
    FiniteIsRunningWithout(s.saved);
    forall p | p in s.procs && s.procs[p].kind.Work? ensures Lists(s.saved, s.procs[p].kind.job, s.procs[p].row.group) {
      assert Listing(c, s.procs[p], s.saved);
    }
  }

  /** A workload starts only when the stored registry already lists its job as running in
      the group the workload will lead. */
  lemma ExecOnlyWhenStored(c: Config, run: seq<Step>, child: Pid)
    requires Enabled(c, StateAfter(c, run), Exec(child))
    ensures Lists(StateAfter(c, run).saved, StateAfter(c, run).procs[child].kind.job, child)
  {
    RunKeeps(c, run);
    var s := StateAfter(c, run);
    assert Listing(c, s.procs[child], s.saved) && GateInPlace(c, s, child);
  }

  /** A running job with a live process of its own is never dropped: no step, whoever takes
      it, leaves a stored registry without it. */
  lemma LiveJobsStay(c: Config, run: seq<Step>, step: Step, p: Pid)
    requires var s := StateAfter(c, run); Enabled(c, s, step)
    requires var s := StateAfter(c, run); p in s.procs && s.procs[p].kind.Work?
    requires var next := After(c, StateAfter(c, run), step);
      p in next.procs && next.procs[p] == StateAfter(c, run).procs[p]
    ensures var s := StateAfter(c, run);
      Lists(s.saved, s.procs[p].kind.job, s.procs[p].row.group)
      && Lists(After(c, s, step).saved, s.procs[p].kind.job, s.procs[p].row.group)
  {
    RunKeeps(c, run);
    var s := StateAfter(c, run);
    StepKeeps(c, s, step);
    assert Listing(c, s.procs[p], s.saved);
    assert Listing(c, After(c, s, step).procs[p], After(c, s, step).saved);
  }

  // ----------------------------------------------------------- launches cut short

  /** Every process that is there was born before the next one will be. */
  ghost predicate BornBefore(s: State) { forall p :: p in s.procs ==> s.procs[p].row.start < s.births }

  lemma {:induction false} StartsAreSpent(c: Config, run: seq<Step>)
    ensures BornBefore(StateAfter(c, run))
  {
    if run != [] {
      StartsAreSpent(c, run[..|run| - 1]);
      var before := StateAfter(c, run[..|run| - 1]);
      if Enabled(c, before, run[|run| - 1]) {
        StepSpends(c, before, run[|run| - 1]);
      }
    }
  }

  lemma StepSpends(c: Config, s: State, step: Step)
    requires BornBefore(s) && Enabled(c, s, step)
    ensures BornBefore(After(c, s, step)) && After(c, s, step).births >= s.births
  {
  }

  /** The child that was born at a moment, if it is there, waits on a closed pipe. */
  predicate HungUp(s: State, child: Pid, start: Start) {
    child in s.procs && s.procs[child].row.start == start ==>
      s.procs[child].kind.Gate? && s.procs[child].kind.pipe == Closed
  }

  lemma StepKeepsHungUp(c: Config, s: State, step: Step, child: Pid, start: Start)
    requires Enabled(c, s, step) && HungUp(s, child, start) && start < s.births
    ensures HungUp(After(c, s, step), child, start) && start < After(c, s, step).births
  {
  }

  lemma {:induction false} HungUpStays(c: Config, run: seq<Step>, later: seq<Step>, child: Pid, start: Start)
    requires HungUp(StateAfter(c, run), child, start) && start < StateAfter(c, run).births
    ensures HungUp(StateAfter(c, run + later), child, start) && start < StateAfter(c, run + later).births
  {
    if later == [] {
      assert run + later == run;
    } else {
      var front, step := later[..|later| - 1], later[|later| - 1];
      assert (run + later)[..|run + later| - 1] == run + front;
      HungUpStays(c, run, front, child, start);
      var before := StateAfter(c, run + front);
      if Enabled(c, before, step) {
        StepKeepsHungUp(c, before, step, child, start);
      }
    }
  }

  /** The lock holder leaves the lock, or is killed inside it. */
  predicate Ends(s: State, step: Step) {
    s.holder.Some? && (step == Unlock || step == Crash(s.holder.value.pid))
  }

  /** A launch cut short starts nothing, ever. A child that has no permission yet belongs to the
      launch of the lock holder; once that supervisor has left the lock or was killed, then over
      every later run that child, if it is still there, waits on a closed pipe: it never
      executes, and a process that has its pid by then is another one, born later. */
  lemma UngrantedNeverRuns(c: Config, run: seq<Step>, child: Pid, end: Step, later: seq<Step>)
    requires var s := StateAfter(c, run);
      child in s.procs && s.procs[child].kind.Gate? && s.procs[child].kind.pipe == Open
    requires Enabled(c, StateAfter(c, run), end) && Ends(StateAfter(c, run), end)
    ensures var s := StateAfter(c, run); s.holder.Some? && ChildOf(s.holder.value.phase) == Some(child)
    ensures var start := StateAfter(c, run).procs[child].row.start;
            var last := StateAfter(c, run + [end] + later);
      && HungUp(last, child, start)
      && (Enabled(c, last, Exec(child)) ==> last.procs[child].row.start != start)
      && (child in last.procs && last.procs[child].kind.Work? ==> last.procs[child].row.start != start)
  {
    RunKeeps(c, run);
    var s := StateAfter(c, run);
    assert GateInPlace(c, s, child);
    StartsAreSpent(c, run);
    assert (run + [end])[..|run|] == run;
    StepSpends(c, s, end);
    HungUpStays(c, run + [end], later, child, s.procs[child].row.start);
  }

  // -------------------------------------------------------------- charging once

  /** While it decides, the lock holder's copy attributes each process to one running job. */
  ghost predicate ChargedOnce(s: State) {
    s.holder.Some? && s.holder.value.phase == Fresh ==> Admission.Disjoint(s.holder.value.work)
  }

  lemma DisjointMore(jobs: seq<Job>, job: Job)
    requires Admission.Disjoint(jobs) && job.status == Status.Waiting
    ensures Admission.Disjoint(jobs + [job])
  {
  }

  lemma DisjointSame(a: seq<Job>, b: seq<Job>)
    requires Admission.Disjoint(a) && SameEntries(a, b)
    ensures Admission.Disjoint(b)
  {
    forall i, j | 0 <= i < j < |b| && b[i].status == Running && b[j].status == Running
      ensures b[i].allowance.footprint.Keys !! b[j].allowance.footprint.Keys {
      assert SameEntry(a[i], b[i]) && SameEntry(a[j], b[j]);
    }
  }

  lemma {:induction false} WithoutIsPart(jobs: seq<Job>, id: Token) returns (places: seq<nat>)
    ensures |places| == |Without(jobs, id)|
    ensures forall k :: 0 <= k < |places| ==> places[k] < |jobs| && Without(jobs, id)[k] == jobs[places[k]]
    ensures forall i, k :: 0 <= i < k < |places| ==> places[i] < places[k]
  {
    places := [];
    if jobs != [] {
      var n := |jobs| - 1;
      places := WithoutIsPart(jobs[..n], id);
      if jobs[n].id != id {
        places := places + [n];
      }
    }
  }

  lemma DisjointWithout(jobs: seq<Job>, id: Token)
    requires Admission.Disjoint(jobs)
    ensures Admission.Disjoint(Without(jobs, id))
  {
    var places := WithoutIsPart(jobs, id);
    var b := Without(jobs, id);
    forall i, j | 0 <= i < j < |b| && b[i].status == Running && b[j].status == Running
      ensures b[i].allowance.footprint.Keys !! b[j].allowance.footprint.Keys {
      assert b[i] == jobs[places[i]] && b[j] == jobs[places[j]];
    }
  }

  lemma StepChargesOnce(c: Config, s: State, step: Step)
    requires ChargedOnce(s) && Enabled(c, s, step)
    ensures ChargedOnce(After(c, s, step))
  {
    match step
    case Refresh(recovered) => RefreshedOnce(s.holder.value.work, Rows(s.procs), c.uid, recovered);
    case Register(job) => DisjointMore(s.holder.value.work, job);
    case Amend(work) => DisjointSame(s.holder.value.work, work);
    case Retire(id) => DisjointWithout(s.holder.value.work, id);
    case _ =>
  }

  lemma {:induction false} RunChargesOnce(c: Config, run: seq<Step>)
    ensures ChargedOnce(StateAfter(c, run))
  {
    if run != [] {
      RunChargesOnce(c, run[..|run| - 1]);
      var before := StateAfter(c, run[..|run| - 1]);
      if Enabled(c, before, run[|run| - 1]) {
        StepChargesOnce(c, before, run[|run| - 1]);
      }
    }
  }

  /** Over every interleaving, each strict admission leaves the cap unbroken by everything it
      can see: the running jobs' whole allowances, the tracked memory that belongs to none of
      them, and the request itself. Nothing of it is counted twice or left out. */
  lemma AdmissionsFitTheCap(c: Config, run: seq<Step>, step: Step)
    requires step.Spawn? && Enabled(c, StateAfter(c, run), step) && c.policy.mode == Admission.Strict
    requires step.sample.trackedKb.Some? ==>
      step.sample.trackedKb.value >= Measured(step.sample.footprints, step.sample.trackedPids)
    ensures var work := StateAfter(c, run).holder.value.work;
      && step.sample.capKb.Some?
      && Admission.HeldTotal(step.sample, work)
         + Measured(step.sample.footprints, step.sample.trackedPids - Admission.Owned(work))
         + work[step.k].allowance.memoryKb <= step.sample.capKb.value
  {
    RunChargesOnce(c, run);
    var work := StateAfter(c, run).holder.value.work;
    var job := work[step.k];
    Admission.VerdictAllowsExactly(c.policy, step.sample, step.controller, step.now, work,
                                   Admission.Request(job.allowance.memoryKb, job.resource));
    Admission.DisjointClaimsOnce(step.sample, work);
    Admission.ChargeCountsEachByteOnce(step.sample, work);
  }
}
