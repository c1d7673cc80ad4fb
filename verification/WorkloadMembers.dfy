/** Which processes the memory of a running job is attributed to (libexec/workload_members.py).
    A job's footprint is the value that footprint_members gives: the attributed processes, or
    the registered ones while nothing has been attributed. */
module WorkloadMembers {
  import opened Common
  import opened Jobs
  import opened Ownership
  import Admission

  /** The position of the running job that each attributed process counts for. */
  type Holders = map<Pid, nat>

  /** Supervisors of running jobs, whose memory no job is charged for. */
  function Owners(jobs: seq<Job>): set<Pid> { set j | j in jobs && j.status == Running :: j.owner }

  /** Only live processes of this user count, and no supervisor. */
  predicate Countable(table: Table, uid: int, owners: set<Pid>, p: Pid) {
    p in table && table[p].uid == uid && p !in owners
  }

  /** Those of some recorded processes that count and are still the same. */
  function Living(pids: map<Pid, Start>, table: Table, uid: int, owners: set<Pid>): set<Pid> {
    set p | p in pids && Countable(table, uid, owners, p) && table[p].start == pids[p]
  }

  function AllTo(pids: set<Pid>, k: nat): Holders { map p | p in pids :: k }

  /** Registered members of the first n jobs; the last job that registers a process has it. */
  function Registered(jobs: seq<Job>, table: Table, uid: int, owners: set<Pid>, n: nat): Holders
    requires n <= |jobs|
  {
    if n == 0 then map[]
    else
      var prior := Registered(jobs, table, uid, owners, n - 1);
      if jobs[n - 1].status == Running
      then prior + AllTo(Living(jobs[n - 1].members, table, uid, owners), n - 1) else prior
  }

  /** Remembered members of the first n jobs, where nothing better is known. */
  function Remembered(jobs: seq<Job>, table: Table, uid: int, owners: set<Pid>, n: nat, known: Holders): Holders
    requires n <= |jobs|
  {
    if n == 0 then known
    else
      var prior := Remembered(jobs, table, uid, owners, n - 1, known);
      if jobs[n - 1].status == Running
      then AllTo(Living(jobs[n - 1].allowance.footprint, table, uid, owners), n - 1) + prior else prior
  }

  /** Children that nothing is known about yet, of processes something is known about. */
  function Heirs(table: Table, uid: int, owners: set<Pid>, m: Holders): set<Pid> {
    set p | p in table && Countable(table, uid, owners, p) && p !in m && table[p].ppid in m
  }

  function Inherited(table: Table, uid: int, owners: set<Pid>, m: Holders): Holders {
    map p | p in Heirs(table, uid, owners, m) :: m[table[p].ppid]
  }

  /** Children count for the job of their parent, generation after generation. */
  function Spread(table: Table, uid: int, owners: set<Pid>, m: Holders): Holders
    decreases |table.Keys - m.Keys|
  {
    if Heirs(table, uid, owners, m) == {} then m
    else
      FewerLeft(table, uid, owners, m);
      Spread(table, uid, owners, m + Inherited(table, uid, owners, m))
  }

  lemma FewerLeft(table: Table, uid: int, owners: set<Pid>, m: Holders)
    requires Heirs(table, uid, owners, m) != {}
    ensures |table.Keys - (m + Inherited(table, uid, owners, m)).Keys| < |table.Keys - m.Keys|
  {
    var heirs := Heirs(table, uid, owners, m);
    var next := m + Inherited(table, uid, owners, m);
    assert next.Keys == m.Keys + heirs;
    assert table.Keys - m.Keys == (table.Keys - next.Keys) + heirs;
    assert (table.Keys - next.Keys) !! heirs && |heirs| > 0;
  }

  /** Whom every attributed process counts for. */
  function Attribution(jobs: seq<Job>, table: Table, uid: int): Holders {
    var owners := Owners(jobs);
    var present := Spread(table, uid, owners, Registered(jobs, table, uid, owners, |jobs|));
    Spread(table, uid, owners, Remembered(jobs, table, uid, owners, |jobs|, present))
  }

  function Share(holders: Holders, table: Table, k: nat): map<Pid, Start> {
    map p | p in holders && p in table && holders[p] == k :: table[p].start
  }

  function WithShare(job: Job, holders: Holders, table: Table, k: nat): Job {
    if job.status == Running then job.(allowance := job.allowance.(footprint := Share(holders, table, k))) else job
  }

  function Shared(jobs: seq<Job>, holders: Holders, table: Table): seq<Job> {
    if jobs == [] then []
    else
      var n := |jobs| - 1;
      Shared(jobs[..n], holders, table) + [WithShare(jobs[n], holders, table, n)]
  }

  /** The registry with every running job's footprint attributed anew. */
  function Attributed(jobs: seq<Job>, table: Table, uid: int): seq<Job> {
    Shared(jobs, Attribution(jobs, table, uid), table)
  }

  // ----------------------------------------------------------------- the procedure

  lemma OneMore(prior: Holders, done: set<Pid>, p: Pid, k: nat)
    ensures prior + AllTo(done + {p}, k) == (prior + AllTo(done, k))[p := k]
  {
  }

  lemma OneMoreDefault(prior: Holders, done: set<Pid>, p: Pid, k: nat)
    ensures AllTo(done + {p}, k) + prior
            == if p in AllTo(done, k) + prior then AllTo(done, k) + prior else (AllTo(done, k) + prior)[p := k]
  {
  }

  lemma NoneYet(prior: Holders, k: nat)
    ensures prior + AllTo({}, k) == prior && AllTo({}, k) + prior == prior
  {
  }

  /** The living ones among those of a dictionary already visited. */
  function Visited(pids: map<Pid, Start>, rest: set<Pid>, table: Table, uid: int, owners: set<Pid>): set<Pid> {
    set p | p in Living(pids, table, uid, owners) && p !in rest
  }

  lemma VisitOne(pids: map<Pid, Start>, rest: set<Pid>, p: Pid, table: Table, uid: int, owners: set<Pid>)
    requires p in rest && p in pids
    ensures Visited(pids, rest - {p}, table, uid, owners)
            == Visited(pids, rest, table, uid, owners) + if p in Living(pids, table, uid, owners) then {p} else {}
  {
  }

  lemma VisitEnds(pids: map<Pid, Start>, table: Table, uid: int, owners: set<Pid>)
    ensures Visited(pids, pids.Keys, table, uid, owners) == {}
    ensures Visited(pids, {}, table, uid, owners) == Living(pids, table, uid, owners)
  {
  }

  /** One job's registered members, overriding what is known. */
  method Claim(pids: map<Pid, Start>, table: Table, uid: int, owners: set<Pid>, k: nat, prior: Holders)
    returns (holders: Holders)
    ensures holders == prior + AllTo(Living(pids, table, uid, owners), k)
  {
    holders := prior;
    var rest := pids.Keys;
    VisitEnds(pids, table, uid, owners);
    NoneYet(prior, k);
    while rest != {}
      invariant rest <= pids.Keys
      invariant holders == prior + AllTo(Visited(pids, rest, table, uid, owners), k)
      decreases |rest|
    {
      var p := Take(rest);
      VisitOne(pids, rest, p, table, uid, owners);
      OneMore(prior, Visited(pids, rest, table, uid, owners), p, k);
      if p in table && table[p].uid == uid && table[p].start == pids[p] && p !in owners {
        holders := holders[p := k];
      }
      rest := rest - {p};
    }
  }

  /** One job's remembered members, where nothing is known. */
  method ClaimRest(pids: map<Pid, Start>, table: Table, uid: int, owners: set<Pid>, k: nat, prior: Holders)
    returns (holders: Holders)
    ensures holders == AllTo(Living(pids, table, uid, owners), k) + prior
  {
    holders := prior;
    var rest := pids.Keys;
    VisitEnds(pids, table, uid, owners);
    NoneYet(prior, k);
    while rest != {}
      invariant rest <= pids.Keys
      invariant holders == AllTo(Visited(pids, rest, table, uid, owners), k) + prior
      decreases |rest|
    {
      var p := Take(rest);
      VisitOne(pids, rest, p, table, uid, owners);
      OneMoreDefault(prior, Visited(pids, rest, table, uid, owners), p, k);
      if p in table && table[p].uid == uid && table[p].start == pids[p] && p !in owners && p !in holders {
        holders := holders[p := k];
      }
      rest := rest - {p};
    }
  }

  /** Part of what spreading gives, and only children of `pending` are still missing. */
  ghost predicate Spreading(table: Table, uid: int, owners: set<Pid>, base: Holders, m: Holders) {
    base.Keys <= m.Keys && Agrees(m, Spread(table, uid, owners, base))
  }

  ghost predicate Agrees(m: Holders, all: Holders) { forall p :: p in m ==> p in all && all[p] == m[p] }

  ghost predicate OnlyBelow(table: Table, uid: int, owners: set<Pid>, m: Holders, pending: set<Pid>, rest: set<Pid>) {
    forall p :: p in Heirs(table, uid, owners, m) ==> table[p].ppid in pending || p in rest
  }

  /** The search for descendants, in any order of the queue. */
  method Descend(table: Table, uid: int, owners: set<Pid>, base: Holders) returns (m: Holders)
    ensures m == Spread(table, uid, owners, base)
  {
    m := base;
    var pending := base.Keys;
    SpreadGrows(table, uid, owners, base);
    while pending != {}
      invariant pending <= m.Keys
      invariant Spreading(table, uid, owners, base, m)
      invariant OnlyBelow(table, uid, owners, m, pending, {})
      decreases |table.Keys - m.Keys|, |pending|
    {
      var parent := Take(pending);
      var start, before := m, pending;
      pending := pending - {parent};
      var rest := set c | c in table && Countable(table, uid, owners, c) && table[c].ppid == parent;
      while rest != {}
        invariant parent in m && start.Keys <= m.Keys && pending <= m.Keys
        invariant forall c :: c in rest ==> c in table && Countable(table, uid, owners, c) && table[c].ppid == parent
        invariant Spreading(table, uid, owners, base, m)
        invariant OnlyBelow(table, uid, owners, m, pending, rest)
        invariant (m == start && pending == before - {parent}) || |table.Keys - m.Keys| < |table.Keys - start.Keys|
        decreases |rest|
      {
        var c := Take(rest);
        if c !in m {
          SpreadingOn(table, uid, owners, base, m, c);
          OneFewer(table, start, m, c, m[parent]);
          BelowAfter(table, uid, owners, m, pending, rest, c, m[parent]);
          m := m[c := m[parent]];
          pending := pending + {c};
        } else {
          BelowSame(table, uid, owners, m, pending, rest, c);
        }
        rest := rest - {c};
      }
    }
    SpreadDone(table, uid, owners, base, m);
  }

  lemma OneFewer(table: Table, start: Holders, m: Holders, c: Pid, k: nat)
    requires start.Keys <= m.Keys && c in table && c !in m
    ensures |table.Keys - m[c := k].Keys| < |table.Keys - start.Keys|
  {
    assert m[c := k].Keys == m.Keys + {c};
    Smaller(table.Keys - m[c := k].Keys, table.Keys - start.Keys);
  }

  lemma BelowAfter(table: Table, uid: int, owners: set<Pid>, m: Holders, pending: set<Pid>, rest: set<Pid>, c: Pid,
                   k: nat)
    requires OnlyBelow(table, uid, owners, m, pending, rest) && c in rest
    ensures OnlyBelow(table, uid, owners, m[c := k], pending + {c}, rest - {c})
  {
    forall p | p in Heirs(table, uid, owners, m[c := k])
      ensures table[p].ppid in pending + {c} || p in rest - {c} {
      if table[p].ppid != c {
        assert p in Heirs(table, uid, owners, m);
      }
    }
  }

  lemma BelowSame(table: Table, uid: int, owners: set<Pid>, m: Holders, pending: set<Pid>, rest: set<Pid>, c: Pid)
    requires OnlyBelow(table, uid, owners, m, pending, rest) && c in m
    ensures OnlyBelow(table, uid, owners, m, pending, rest - {c})
  {
  }

  lemma SpreadingOn(table: Table, uid: int, owners: set<Pid>, base: Holders, m: Holders, c: Pid)
    requires Spreading(table, uid, owners, base, m) && c in table && Countable(table, uid, owners, c)
    requires c !in m && table[c].ppid in m
    ensures Spreading(table, uid, owners, base, m[c := m[table[c].ppid]])
  {
    var all := Spread(table, uid, owners, base);
    SpreadCloses(table, uid, owners, base);
    assert table[c].ppid in all;
    SpreadInherits(table, uid, owners, base, c);
  }

  lemma SameMap(m: Holders, all: Holders)
    requires Agrees(m, all) && all.Keys <= m.Keys
    ensures m == all
  {
    forall p | p in m ensures p in all && all[p] == m[p] {
    }
    forall p | p in all ensures p in m {
      assert p in all.Keys;
    }
  }

  lemma SpreadDone(table: Table, uid: int, owners: set<Pid>, base: Holders, m: Holders)
    requires Spreading(table, uid, owners, base, m) && OnlyBelow(table, uid, owners, m, {}, {})
    ensures m == Spread(table, uid, owners, base)
  {
    NoHeirs(table, uid, owners, m);
    SpreadIsLeast(table, uid, owners, base, m.Keys);
    SameMap(m, Spread(table, uid, owners, base));
  }

  /** Attribute every running job's footprint anew: registered members first, then what
      descends from them, then remembered members, then what descends from those. */
  method RefreshFootprints(jobs: seq<Job>, table: Table, uid: int) returns (live: seq<Job>)
    ensures live == Attributed(jobs, table, uid)
  {
    if forall k :: 0 <= k < |jobs| ==> jobs[k].status != Running {
      NoneRunning(jobs, Attribution(jobs, table, uid), table);
      return jobs;
    }
    var owners := Owners(jobs);
    var holders: Holders := map[];
    for k := 0 to |jobs|
      invariant holders == Registered(jobs, table, uid, owners, k)
    {
      if jobs[k].status == Running {
        holders := Claim(jobs[k].members, table, uid, owners, k, holders);
      }
    }
    holders := Descend(table, uid, owners, holders);
    ghost var present := holders;
    for k := 0 to |jobs|
      invariant holders == Remembered(jobs, table, uid, owners, k, present)
    {
      if jobs[k].status == Running {
        holders := ClaimRest(jobs[k].allowance.footprint, table, uid, owners, k, holders);
      }
    }
    holders := Descend(table, uid, owners, holders);
    live := [];
    for k := 0 to |jobs|
      invariant live == Shared(jobs[..k], holders, table)
    {
      assert jobs[..k + 1][..k] == jobs[..k];
      live := live + [WithShare(jobs[k], holders, table, k)];
    }
    assert jobs[..|jobs|] == jobs;
  }

  lemma {:induction false} NoneRunning(jobs: seq<Job>, holders: Holders, table: Table)
    requires forall k :: 0 <= k < |jobs| ==> jobs[k].status != Running
    ensures Shared(jobs, holders, table) == jobs
  {
    if jobs != [] {
      NoneRunning(jobs[..|jobs| - 1], holders, table);
    }
  }

  // ------------------------------------------------------------ what spreading gives

  lemma {:induction false} SpreadGrows(table: Table, uid: int, owners: set<Pid>, m: Holders)
    ensures Agrees(m, Spread(table, uid, owners, m))
    decreases |table.Keys - m.Keys|
  {
    if Heirs(table, uid, owners, m) != {} {
      FewerLeft(table, uid, owners, m);
      SpreadGrows(table, uid, owners, m + Inherited(table, uid, owners, m));
    }
  }

  lemma NoHeirs(table: Table, uid: int, owners: set<Pid>, m: Holders)
    requires Heirs(table, uid, owners, m) == {}
    ensures ClosedUnder(table, uid, owners, m.Keys)
  {
    forall p | p in table && Countable(table, uid, owners, p) && table[p].ppid in m ensures p in m {
      assert p in m || p in Heirs(table, uid, owners, m);
    }
  }

  /** No child of an attributed process is left out. */
  lemma {:induction false} SpreadCloses(table: Table, uid: int, owners: set<Pid>, m: Holders)
    ensures ClosedUnder(table, uid, owners, Spread(table, uid, owners, m).Keys)
    decreases |table.Keys - m.Keys|
  {
    if Heirs(table, uid, owners, m) != {} {
      FewerLeft(table, uid, owners, m);
      SpreadCloses(table, uid, owners, m + Inherited(table, uid, owners, m));
    } else {
      NoHeirs(table, uid, owners, m);
    }
  }

  /** Whatever was not known before counts, and for the job of its parent. */
  lemma {:induction false} SpreadInherits(table: Table, uid: int, owners: set<Pid>, m: Holders, p: Pid)
    requires p in Spread(table, uid, owners, m) && p !in m
    ensures var all := Spread(table, uid, owners, m);
      Countable(table, uid, owners, p) && table[p].ppid in all && all[p] == all[table[p].ppid]
    decreases |table.Keys - m.Keys|
  {
    var heirs := Heirs(table, uid, owners, m);
    if heirs != {} {
      var next := m + Inherited(table, uid, owners, m);
      FewerLeft(table, uid, owners, m);
      if p in next {
        SpreadGrows(table, uid, owners, next);
        assert p in heirs && next[p] == m[table[p].ppid] && next[table[p].ppid] == m[table[p].ppid];
      } else {
        SpreadInherits(table, uid, owners, next, p);
      }
    }
  }

  /** A set of processes that contains every countable child of its members. */
  ghost predicate ClosedUnder(table: Table, uid: int, owners: set<Pid>, s: set<Pid>) {
    forall p :: p in table && Countable(table, uid, owners, p) && table[p].ppid in s ==> p in s
  }

  lemma {:induction false} SpreadIsLeast(table: Table, uid: int, owners: set<Pid>, m: Holders, s: set<Pid>)
    requires m.Keys <= s && ClosedUnder(table, uid, owners, s)
    ensures Spread(table, uid, owners, m).Keys <= s
    decreases |table.Keys - m.Keys|
  {
    if Heirs(table, uid, owners, m) != {} {
      FewerLeft(table, uid, owners, m);
      SpreadIsLeast(table, uid, owners, m + Inherited(table, uid, owners, m), s);
    }
  }

  /** Nor is anything added but descendants: job k's part stays in every closed set that holds
      what was already known to be k's. */
  lemma {:induction false} SpreadStaysIn(table: Table, uid: int, owners: set<Pid>, m: Holders, k: nat, s: set<Pid>)
    requires ClosedUnder(table, uid, owners, s) && forall p :: p in m && m[p] == k ==> p in s
    ensures forall p :: p in Spread(table, uid, owners, m) && Spread(table, uid, owners, m)[p] == k ==> p in s
    decreases |table.Keys - m.Keys|
  {
    if Heirs(table, uid, owners, m) != {} {
      FewerLeft(table, uid, owners, m);
      SpreadStaysIn(table, uid, owners, m + Inherited(table, uid, owners, m), k, s);
    }
  }

  // ---------------------------------------------------------------- the registry

  /** Only the footprints of running jobs change, and they become the jobs' shares. */
  lemma {:induction false} SharedAt(jobs: seq<Job>, holders: Holders, table: Table, k: nat)
    requires k < |jobs|
    ensures |Shared(jobs, holders, table)| == |jobs|
    ensures Shared(jobs, holders, table)[k] == WithShare(jobs[k], holders, table, k)
  {
    var n := |jobs| - 1;
    if k < n {
      SharedAt(jobs[..n], holders, table, k);
    } else if n > 0 {
      SharedAt(jobs[..n], holders, table, 0);
    }
  }

  lemma {:induction false} SharedLength(jobs: seq<Job>, holders: Holders, table: Table)
    ensures |Shared(jobs, holders, table)| == |jobs|
  {
    if jobs != [] {
      SharedLength(jobs[..|jobs| - 1], holders, table);
    }
  }

  /** Whatever the members on record, every process counts for at most one running job. */
  lemma AttributedOnce(jobs: seq<Job>, table: Table, uid: int)
    ensures Admission.Disjoint(Attributed(jobs, table, uid))
  {
    var holders := Attribution(jobs, table, uid);
    var after := Attributed(jobs, table, uid);
    SharedLength(jobs, holders, table);
    forall i, j | 0 <= i < j < |after| && after[i].status == Running && after[j].status == Running
      ensures after[i].allowance.footprint.Keys !! after[j].allowance.footprint.Keys {
      SharedAt(jobs, holders, table, i);
      SharedAt(jobs, holders, table, j);
    }
  }

  /** What a running job is charged for afterwards. */
  function FootprintOf(jobs: seq<Job>, table: Table, uid: int, k: nat): map<Pid, Start>
    requires k < |jobs|
  {
    SharedLength(jobs, Attribution(jobs, table, uid), table);
    Attributed(jobs, table, uid)[k].allowance.footprint
  }

  lemma FootprintIsShare(jobs: seq<Job>, table: Table, uid: int, k: nat)
    requires k < |jobs| && jobs[k].status == Running
    ensures FootprintOf(jobs, table, uid, k) == Share(Attribution(jobs, table, uid), table, k)
  {
    SharedAt(jobs, Attribution(jobs, table, uid), table, k);
  }

  // --------------------------------------------------------- what is known at first

  lemma {:induction false} RegisteredGivesTo(jobs: seq<Job>, table: Table, uid: int, owners: set<Pid>, n: nat, p: Pid)
    requires n <= |jobs| && p in Registered(jobs, table, uid, owners, n)
    ensures var k := Registered(jobs, table, uid, owners, n)[p];
      k < n && jobs[k].status == Running && p in Living(jobs[k].members, table, uid, owners)
  {
    if jobs[n - 1].status != Running || p !in Living(jobs[n - 1].members, table, uid, owners) {
      RegisteredGivesTo(jobs, table, uid, owners, n - 1, p);
    }
  }

  lemma {:induction false} RegisteredHolds(jobs: seq<Job>, table: Table, uid: int, owners: set<Pid>, n: nat, k: nat,
                                           p: Pid)
    requires k < n <= |jobs| && jobs[k].status == Running && p in Living(jobs[k].members, table, uid, owners)
    ensures p in Registered(jobs, table, uid, owners, n) && Registered(jobs, table, uid, owners, n)[p] >= k
  {
    if k < n - 1 {
      RegisteredHolds(jobs, table, uid, owners, n - 1, k, p);
    }
  }

  lemma {:induction false} RememberedGivesTo(jobs: seq<Job>, table: Table, uid: int, owners: set<Pid>, n: nat,
                                             known: Holders, p: Pid)
    requires n <= |jobs| && p in Remembered(jobs, table, uid, owners, n, known)
    ensures var k := Remembered(jobs, table, uid, owners, n, known)[p];
      if p in known then k == known[p]
      else k < n && jobs[k].status == Running && p in Living(jobs[k].allowance.footprint, table, uid, owners)
  {
    if n > 0 && p in Remembered(jobs, table, uid, owners, n - 1, known) {
      RememberedGivesTo(jobs, table, uid, owners, n - 1, known, p);
    } else if n > 0 {
      RememberedKeeps(jobs, table, uid, owners, n - 1, known);
    }
  }

  lemma {:induction false} RememberedKeeps(jobs: seq<Job>, table: Table, uid: int, owners: set<Pid>, n: nat,
                                           known: Holders)
    requires n <= |jobs|
    ensures Agrees(known, Remembered(jobs, table, uid, owners, n, known))
  {
    if n > 0 {
      RememberedKeeps(jobs, table, uid, owners, n - 1, known);
    }
  }

  lemma {:induction false} RememberedHolds(jobs: seq<Job>, table: Table, uid: int, owners: set<Pid>, n: nat,
                                           known: Holders, k: nat, p: Pid)
    requires k < n <= |jobs| && jobs[k].status == Running
      && p in Living(jobs[k].allowance.footprint, table, uid, owners)
    ensures p in Remembered(jobs, table, uid, owners, n, known)
  {
    if k < n - 1 {
      RememberedHolds(jobs, table, uid, owners, n - 1, known, k, p);
    }
  }

  // ------------------------------------------------------------------- the results

  /** A process is charged to the job that registered it, whatever was remembered of it: the
      last job that did, if several have. */
  lemma RegistrationDecides(jobs: seq<Job>, table: Table, uid: int, k: nat, p: Pid)
    requires k < |jobs| && jobs[k].status == Running && p in Living(jobs[k].members, table, uid, Owners(jobs))
    requires forall j :: k < j < |jobs| && jobs[j].status == Running ==>
      p !in Living(jobs[j].members, table, uid, Owners(jobs))
    ensures p in FootprintOf(jobs, table, uid, k)
  {
    var owners := Owners(jobs);
    var first := Registered(jobs, table, uid, owners, |jobs|);
    RegisteredHolds(jobs, table, uid, owners, |jobs|, k, p);
    RegisteredGivesTo(jobs, table, uid, owners, |jobs|, p);
    AttributionKeeps(jobs, table, uid, p);
    FootprintIsShare(jobs, table, uid, k);
  }

  lemma AttributionKeeps(jobs: seq<Job>, table: Table, uid: int, p: Pid)
    ensures var known := Spread(table, uid, Owners(jobs), Registered(jobs, table, uid, Owners(jobs), |jobs|));
      p in known ==> p in Attribution(jobs, table, uid) && Attribution(jobs, table, uid)[p] == known[p]
    ensures var first := Registered(jobs, table, uid, Owners(jobs), |jobs|);
      p in first ==> p in Attribution(jobs, table, uid) && Attribution(jobs, table, uid)[p] == first[p]
  {
    var owners := Owners(jobs);
    var first := Registered(jobs, table, uid, owners, |jobs|);
    var known := Spread(table, uid, owners, first);
    SpreadGrows(table, uid, owners, first);
    RememberedKeeps(jobs, table, uid, owners, |jobs|, known);
    SpreadGrows(table, uid, owners, Remembered(jobs, table, uid, owners, |jobs|, known));
  }

  /** Nothing that is there is lost: a live member that a running job registered or remembers
      counts for some running job, and so does every countable child of what counts. */
  lemma NothingIsLost(jobs: seq<Job>, table: Table, uid: int, k: nat, p: Pid)
    requires k < |jobs| && jobs[k].status == Running
    requires p in Living(jobs[k].members, table, uid, Owners(jobs))
          || p in Living(jobs[k].allowance.footprint, table, uid, Owners(jobs))
          || (Countable(table, uid, Owners(jobs), p) && table[p].ppid in FootprintOf(jobs, table, uid, k))
    ensures exists j :: 0 <= j < |jobs| && jobs[j].status == Running && p in FootprintOf(jobs, table, uid, j)
  {
    var owners := Owners(jobs);
    var first := Registered(jobs, table, uid, owners, |jobs|);
    var known := Spread(table, uid, owners, first);
    var base := Remembered(jobs, table, uid, owners, |jobs|, known);
    FootprintIsShare(jobs, table, uid, k);
    SpreadCloses(table, uid, owners, base);
    if p in Living(jobs[k].members, table, uid, owners) {
      RegisteredHolds(jobs, table, uid, owners, |jobs|, k, p);
      AttributionKeeps(jobs, table, uid, p);
    } else if p in Living(jobs[k].allowance.footprint, table, uid, owners) {
      RememberedHolds(jobs, table, uid, owners, |jobs|, known, k, p);
      SpreadGrows(table, uid, owners, base);
    }
    HolderRuns(jobs, table, uid, p);
    FootprintIsShare(jobs, table, uid, Attribution(jobs, table, uid)[p]);
  }

  /** Every process is attributed to a running job, and is a live countable process. */
  lemma HolderRuns(jobs: seq<Job>, table: Table, uid: int, p: Pid)
    requires p in Attribution(jobs, table, uid)
    ensures ToRunning(jobs, table, uid, p, Attribution(jobs, table, uid)[p])
  {
    var owners := Owners(jobs);
    var first := Registered(jobs, table, uid, owners, |jobs|);
    var known := Spread(table, uid, owners, first);
    var base := Remembered(jobs, table, uid, owners, |jobs|, known);
    forall q | q in first ensures ToRunning(jobs, table, uid, q, first[q]) {
      RegisteredGivesTo(jobs, table, uid, owners, |jobs|, q);
    }
    SpreadToRunning(jobs, table, uid, first);
    forall q | q in base ensures ToRunning(jobs, table, uid, q, base[q]) {
      RememberedGivesTo(jobs, table, uid, owners, |jobs|, known, q);
      if q in known {
        assert ToRunning(jobs, table, uid, q, known[q]);
      }
    }
    SpreadToRunning(jobs, table, uid, base);
  }

  predicate ToRunning(jobs: seq<Job>, table: Table, uid: int, p: Pid, k: nat) {
    k < |jobs| && jobs[k].status == Running && Countable(table, uid, Owners(jobs), p)
  }

  ghost predicate AllToRunning(jobs: seq<Job>, table: Table, uid: int, m: Holders) {
    forall q :: q in m ==> ToRunning(jobs, table, uid, q, m[q])
  }

  lemma NextToRunning(jobs: seq<Job>, table: Table, uid: int, m: Holders)
    requires AllToRunning(jobs, table, uid, m)
    ensures AllToRunning(jobs, table, uid, m + Inherited(table, uid, Owners(jobs), m))
  {
    var owners := Owners(jobs);
    var next := m + Inherited(table, uid, owners, m);
    forall q | q in next ensures ToRunning(jobs, table, uid, q, next[q]) {
      if q in Heirs(table, uid, owners, m) {
        assert ToRunning(jobs, table, uid, table[q].ppid, m[table[q].ppid]);
      }
    }
  }

  lemma {:induction false} SpreadToRunning(jobs: seq<Job>, table: Table, uid: int, m: Holders)
    requires AllToRunning(jobs, table, uid, m)
    ensures AllToRunning(jobs, table, uid, Spread(table, uid, Owners(jobs), m))
    decreases |table.Keys - m.Keys|
  {
    var owners := Owners(jobs);
    if Heirs(table, uid, owners, m) != {} {
      FewerLeft(table, uid, owners, m);
      NextToRunning(jobs, table, uid, m);
      SpreadToRunning(jobs, table, uid, m + Inherited(table, uid, owners, m));
    }
  }

  ghost predicate AllLiving(pids: map<Pid, Start>, table: Table, uid: int, owners: set<Pid>) {
    Living(pids, table, uid, owners) == pids.Keys
  }

  /** And nothing else counts: a running job's share holds live processes of this user alone,
      no supervisor of a running job among them, and lies within every set that contains the
      job's live registered and remembered members and the countable children of its own. */
  lemma OnlyItsOwn(jobs: seq<Job>, table: Table, uid: int, k: nat, s: set<Pid>)
    requires k < |jobs| && jobs[k].status == Running && ClosedUnder(table, uid, Owners(jobs), s)
    requires Living(jobs[k].members, table, uid, Owners(jobs)) <= s
    requires Living(jobs[k].allowance.footprint, table, uid, Owners(jobs)) <= s
    ensures FootprintOf(jobs, table, uid, k).Keys <= s
    ensures AllLiving(FootprintOf(jobs, table, uid, k), table, uid, Owners(jobs))
  {
    var owners := Owners(jobs);
    var first := Registered(jobs, table, uid, owners, |jobs|);
    var known := Spread(table, uid, owners, first);
    var base := Remembered(jobs, table, uid, owners, |jobs|, known);
    forall p | p in first && first[p] == k ensures p in s {
      RegisteredGivesTo(jobs, table, uid, owners, |jobs|, p);
    }
    SpreadStaysIn(table, uid, owners, first, k, s);
    forall p | p in base && base[p] == k ensures p in s {
      RememberedGivesTo(jobs, table, uid, owners, |jobs|, known, p);
    }
    SpreadStaysIn(table, uid, owners, base, k, s);
    FootprintIsShare(jobs, table, uid, k);
    forall p | p in FootprintOf(jobs, table, uid, k)
        ensures p in Living(FootprintOf(jobs, table, uid, k), table, uid, owners) {
      HolderRuns(jobs, table, uid, p);
    }
  }

  /** Present ancestry comes before memory: a child that no running job registered counts for
      the job of its parent, if its parent is registered or descends from a registered one. */
  lemma ParentDecides(jobs: seq<Job>, table: Table, uid: int, p: Pid)
    requires Countable(table, uid, Owners(jobs), p)
    requires var first := Registered(jobs, table, uid, Owners(jobs), |jobs|);
      p !in first && table[p].ppid in Spread(table, uid, Owners(jobs), first)
    ensures var all := Attribution(jobs, table, uid);
      p in all && table[p].ppid in all && all[p] == all[table[p].ppid]
  {
    var owners := Owners(jobs);
    var first := Registered(jobs, table, uid, owners, |jobs|);
    SpreadCloses(table, uid, owners, first);
    SpreadInherits(table, uid, owners, first, p);
    AttributionKeeps(jobs, table, uid, p);
    AttributionKeeps(jobs, table, uid, table[p].ppid);
  }
}
