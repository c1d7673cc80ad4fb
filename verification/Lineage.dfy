/** Whose process it is, told by its parents: the attribution of libexec/workload_members.py and
    the members of libexec/job_observation.py as chains of parent links. */
module Lineage {
  import opened Common
  import opened Jobs
  import opened Ownership
  import opened WorkloadMembers

  // ---------------------------------------------------------------------- chains

  /** A chain of parent links upward. */
  predicate Upward(path: seq<Pid>, table: Table) {
    |path| > 0 && forall k :: 0 <= k < |path| - 1 ==> path[k] in table && table[path[k]].ppid == path[k + 1]
  }

  /** A live process of this user that supervises no running job. */
  predicate Live(jobs: seq<Job>, table: Table, uid: int, p: Pid) {
    p in table && table[p].uid == uid && forall j :: j in jobs && j.status == Running ==> j.owner != p
  }

  lemma LiveExactly(jobs: seq<Job>, table: Table, uid: int, p: Pid)
    ensures Countable(table, uid, Owners(jobs), p) <==> Live(jobs, table, uid, p)
  {
    if j :| j in jobs && j.status == Running && j.owner == p {
      assert p in Owners(jobs);
    }
  }

  /** From p upward, through live processes not yet known, to one that is known. */
  predicate Leads(jobs: seq<Job>, table: Table, uid: int, m: Holders, path: seq<Pid>, p: Pid) {
    && Upward(path, table) && path[0] == p && path[|path| - 1] in m
    && forall k :: 0 <= k < |path| - 1 ==> Live(jobs, table, uid, path[k]) && path[k] !in m
  }

  lemma LeadsOn(jobs: seq<Job>, table: Table, uid: int, m: Holders, path: seq<Pid>, p: Pid)
    requires Leads(jobs, table, uid, m, path, p) && |path| > 1
    ensures Leads(jobs, table, uid, m, path[1..], path[1]) && table[p].ppid == path[1] && p !in m
    ensures Live(jobs, table, uid, p)
  {
    assert path[0] !in m && Live(jobs, table, uid, path[0]);
    forall k | 0 <= k < |path[1..]| - 1
      ensures path[1..][k] in table && table[path[1..][k]].ppid == path[1..][k + 1]
      ensures Live(jobs, table, uid, path[1..][k]) && path[1..][k] !in m
    {
      assert path[1..][k] == path[k + 1];
    }
  }

  /** Whoever such a chain leads from counts for the job it leads to. */
  lemma {:induction false} LedIsSpread(jobs: seq<Job>, table: Table, uid: int, m: Holders, path: seq<Pid>, p: Pid)
    requires Leads(jobs, table, uid, m, path, p)
    ensures var all := Spread(table, uid, Owners(jobs), m); p in all && all[p] == m[path[|path| - 1]]
    decreases |path|
  {
    var owners := Owners(jobs);
    SpreadGrows(table, uid, owners, m);
    if |path| > 1 {
      LeadsOn(jobs, table, uid, m, path, p);
      LedIsSpread(jobs, table, uid, m, path[1..], path[1]);
      LiveExactly(jobs, table, uid, p);
      SpreadCloses(table, uid, owners, m);
      SpreadInherits(table, uid, owners, m, p);
    }
  }

  lemma Longer(jobs: seq<Job>, table: Table, uid: int, m: Holders, path: seq<Pid>, p: Pid)
    requires p in table && Live(jobs, table, uid, p) && p !in m && Leads(jobs, table, uid, m, path, table[p].ppid)
    ensures Leads(jobs, table, uid, m, [p] + path, p)
  {
    var more := [p] + path;
    forall k | 0 <= k < |more| - 1
      ensures more[k] in table && table[more[k]].ppid == more[k + 1]
      ensures Live(jobs, table, uid, more[k]) && more[k] !in m
    {
      if k > 0 {
        assert more[k] == path[k - 1] && more[k + 1] == path[k];
      }
    }
  }

  /** A chain in terms of what is known one generation later is one in terms of what was known. */
  lemma {:induction false} Earlier(jobs: seq<Job>, table: Table, uid: int, m: Holders, path: seq<Pid>, p: Pid)
    returns (longer: seq<Pid>)
    requires Leads(jobs, table, uid, m + Inherited(table, uid, Owners(jobs), m), path, p)
    ensures Leads(jobs, table, uid, m, longer, p)
    decreases |path|
  {
    var next := m + Inherited(table, uid, Owners(jobs), m);
    if |path| == 1 {
      if p in m {
        longer := [p];
      } else {
        LiveExactly(jobs, table, uid, p);
        Longer(jobs, table, uid, m, [table[p].ppid], p);
        longer := [p, table[p].ppid];
        assert [p] + [table[p].ppid] == longer;
      }
    } else {
      LeadsOn(jobs, table, uid, next, path, p);
      var rest := Earlier(jobs, table, uid, m, path[1..], path[1]);
      Longer(jobs, table, uid, m, rest, p);
      longer := [p] + rest;
    }
  }

  lemma {:induction false} SpreadIsLed(jobs: seq<Job>, table: Table, uid: int, m: Holders, p: Pid)
    returns (path: seq<Pid>)
    requires p in Spread(table, uid, Owners(jobs), m)
    ensures Leads(jobs, table, uid, m, path, p)
    decreases |table.Keys - m.Keys|
  {
    var owners := Owners(jobs);
    if Heirs(table, uid, owners, m) == {} {
      path := [p];
    } else {
      FewerLeft(table, uid, owners, m);
      path := SpreadIsLed(jobs, table, uid, m + Inherited(table, uid, owners, m), p);
      path := Earlier(jobs, table, uid, m, path, p);
    }
  }

  /** A process counts for the job of its nearest known ancestor, or for none. */
  lemma NearestDecides(jobs: seq<Job>, table: Table, uid: int, m: Holders, p: Pid, k: nat)
    ensures var all := Spread(table, uid, Owners(jobs), m);
      p in all && all[p] == k <==> exists path :: Leads(jobs, table, uid, m, path, p) && m[path[|path| - 1]] == k
  {
    var all := Spread(table, uid, Owners(jobs), m);
    if p in all {
      var path := SpreadIsLed(jobs, table, uid, m, p);
      LedIsSpread(jobs, table, uid, m, path, p);
    }
    if path :| Leads(jobs, table, uid, m, path, p) && m[path[|path| - 1]] == k {
      LedIsSpread(jobs, table, uid, m, path, p);
    }
  }

  // ------------------------------------------------------------ who is known at first

  /** Job k runs and has recorded this very process. */
  predicate Records(jobs: seq<Job>, table: Table, uid: int, pids: map<Pid, Start>, p: Pid) {
    Live(jobs, table, uid, p) && p in pids && pids[p] == table[p].start
  }

  predicate Registers(jobs: seq<Job>, table: Table, uid: int, k: nat, p: Pid) {
    k < |jobs| && jobs[k].status == Running && Records(jobs, table, uid, jobs[k].members, p)
  }

  predicate Remembers(jobs: seq<Job>, table: Table, uid: int, k: nat, p: Pid) {
    k < |jobs| && jobs[k].status == Running && Records(jobs, table, uid, jobs[k].allowance.footprint, p)
  }

  lemma RecordsExactly(jobs: seq<Job>, table: Table, uid: int, pids: map<Pid, Start>, p: Pid)
    ensures p in Living(pids, table, uid, Owners(jobs)) <==> Records(jobs, table, uid, pids, p)
  {
    LiveExactly(jobs, table, uid, p);
  }

  /** A registered process belongs to the last running job that registers it. */
  lemma {:induction false} RegisteredExactly(jobs: seq<Job>, table: Table, uid: int, n: nat, p: Pid, k: nat)
    requires n <= |jobs|
    ensures var m := Registered(jobs, table, uid, Owners(jobs), n);
      p in m && m[p] == k <==>
        k < n && Registers(jobs, table, uid, k, p) && forall j: nat :: k < j < n ==> !Registers(jobs, table, uid, j, p)
  {
    if n > 0 {
      RegisteredExactly(jobs, table, uid, n - 1, p, k);
      RecordsExactly(jobs, table, uid, jobs[n - 1].members, p);
      assert Registers(jobs, table, uid, n - 1, p) <==>
        jobs[n - 1].status == Running && p in Living(jobs[n - 1].members, table, uid, Owners(jobs));
    }
  }

  /** One that nothing is known of belongs to the first running job that remembers it. */
  lemma {:induction false} RememberedExactly(jobs: seq<Job>, table: Table, uid: int, n: nat, known: Holders, p: Pid,
                                             k: nat)
    requires n <= |jobs|
    ensures var m := Remembered(jobs, table, uid, Owners(jobs), n, known);
      p in m && m[p] == k <==>
        if p in known then known[p] == k
        else k < n && Remembers(jobs, table, uid, k, p) && forall j: nat :: j < k ==> !Remembers(jobs, table, uid, j, p)
  {
    if n == 0 {
      assert Remembered(jobs, table, uid, Owners(jobs), n, known) == known;
    } else {
      RememberedExactly(jobs, table, uid, n - 1, known, p, k);
      RecordsExactly(jobs, table, uid, jobs[n - 1].allowance.footprint, p);
      assert Remembers(jobs, table, uid, n - 1, p) <==>
        jobs[n - 1].status == Running && p in Living(jobs[n - 1].allowance.footprint, table, uid, Owners(jobs));
      if p in known {
        RememberedKeeps(jobs, table, uid, Owners(jobs), n - 1, known);
        RememberedKeeps(jobs, table, uid, Owners(jobs), n, known);
      } else if p in Remembered(jobs, table, uid, Owners(jobs), n - 1, known) {
        var j := Remembered(jobs, table, uid, Owners(jobs), n - 1, known)[p];
        RememberedExactly(jobs, table, uid, n - 1, known, p, j);
      } else {
        NoneRemembers(jobs, table, uid, n - 1, known, p);
      }
    }
  }

  lemma {:induction false} NoneRemembers(jobs: seq<Job>, table: Table, uid: int, n: nat, known: Holders, p: Pid)
    requires n <= |jobs| && p !in Remembered(jobs, table, uid, Owners(jobs), n, known)
    ensures forall j: nat :: j < n ==> !Remembers(jobs, table, uid, j, p)
  {
    if n > 0 {
      NoneRemembers(jobs, table, uid, n - 1, known, p);
      RecordsExactly(jobs, table, uid, jobs[n - 1].allowance.footprint, p);
      assert Remembers(jobs, table, uid, n - 1, p) <==>
        jobs[n - 1].status == Running && p in Living(jobs[n - 1].allowance.footprint, table, uid, Owners(jobs));
    }
  }

  /** What a running job is charged for after a refresh, and with which identity: every process whose
      nearest ancestor that is registered, descends from a registered one, or is remembered,
      is this job's. */
  lemma ChargedExactly(jobs: seq<Job>, table: Table, uid: int, k: nat, p: Pid)
    requires k < |jobs| && jobs[k].status == Running
    ensures var first := Registered(jobs, table, uid, Owners(jobs), |jobs|);
            var known := Spread(table, uid, Owners(jobs), first);
            var base := Remembered(jobs, table, uid, Owners(jobs), |jobs|, known);
      && (p in FootprintOf(jobs, table, uid, k) <==>
            p in table && exists path :: Leads(jobs, table, uid, base, path, p) && base[path[|path| - 1]] == k)
      && (p in FootprintOf(jobs, table, uid, k) ==> FootprintOf(jobs, table, uid, k)[p] == table[p].start)
  {
    var first := Registered(jobs, table, uid, Owners(jobs), |jobs|);
    var known := Spread(table, uid, Owners(jobs), first);
    var base := Remembered(jobs, table, uid, Owners(jobs), |jobs|, known);
    FootprintIsShare(jobs, table, uid, k);
    NearestDecides(jobs, table, uid, base, p, k);
  }

  // ---------------------------------------------------- the members of an observation

  /** Listed, and not registered to another job. */
  predicate Shown(s: Scope, table: Table, p: Pid) {
    p in table && !(p in s.exclusions && s.exclusions[p] == table[p].start)
  }

  /** Remembered and still the same, or in the job's group without being its supervisor. */
  predicate IsAnchor(s: Scope, table: Table, uid: int, p: Pid) {
    Shown(s, table, p) && table[p].uid == uid && p in s.footprint && s.footprint[p] == table[p].start
  }

  predicate InGroup(s: Scope, table: Table, uid: int, p: Pid) {
    Shown(s, table, p) && table[p].uid == uid && table[p].group == s.group && p != s.supervisor
  }

  /** From p upward, through this user's processes but not the supervisor, to an anchor or the group. */
  predicate Belongs(s: Scope, table: Table, uid: int, path: seq<Pid>, p: Pid) {
    && Upward(path, table) && path[0] == p
    && (IsAnchor(s, table, uid, path[|path| - 1]) || InGroup(s, table, uid, path[|path| - 1]))
    && forall k :: 0 <= k < |path| - 1 ==>
         Shown(s, table, path[k]) && table[path[k]].uid == uid && path[k] != s.supervisor
  }

  lemma BelongsOn(s: Scope, table: Table, uid: int, path: seq<Pid>, p: Pid)
    requires Belongs(s, table, uid, path, p) && |path| > 1
    ensures Belongs(s, table, uid, path[1..], path[1])
    ensures Shown(s, table, p) && table[p].uid == uid && p != s.supervisor && table[p].ppid == path[1]
  {
    assert path[0] == p;
    forall k | 0 <= k < |path[1..]| - 1
      ensures path[1..][k] in table && table[path[1..][k]].ppid == path[1..][k + 1]
      ensures Shown(s, table, path[1..][k]) && table[path[1..][k]].uid == uid && path[1..][k] != s.supervisor
    {
      assert path[1..][k] == path[k + 1];
    }
  }

  lemma BelongsMore(s: Scope, table: Table, uid: int, path: seq<Pid>, p: Pid)
    requires Shown(s, table, p) && table[p].uid == uid && p != s.supervisor
    requires Belongs(s, table, uid, path, table[p].ppid)
    ensures Belongs(s, table, uid, [p] + path, p)
  {
    var more := [p] + path;
    forall k | 0 <= k < |more| - 1
      ensures more[k] in table && table[more[k]].ppid == more[k + 1]
      ensures Shown(s, table, more[k]) && table[more[k]].uid == uid && more[k] != s.supervisor
    {
      if k > 0 {
        assert more[k] == path[k - 1] && more[k + 1] == path[k];
      }
    }
  }

  lemma RootsExactly(s: Scope, table: Table, uid: int, p: Pid)
    ensures var rows := Visible(s, table);
      && (p in rows <==> Shown(s, table, p)) && (p in rows ==> rows[p] == table[p])
      && (p in Anchors(s, rows, uid) <==> IsAnchor(s, table, uid, p))
      && (p in Grouped(s, rows, uid) <==> InGroup(s, table, uid, p))
  {
  }

  lemma {:induction false} BelongingIsOwned(s: Scope, table: Table, uid: int, path: seq<Pid>, p: Pid)
    requires Belongs(s, table, uid, path, p)
    ensures var rows := Visible(s, table);
      p in Closure(s, rows, uid, Anchors(s, rows, uid) + Grouped(s, rows, uid))
    decreases |path|
  {
    var rows := Visible(s, table);
    var base := Anchors(s, rows, uid) + Grouped(s, rows, uid);
    ClosureIsLeast(s, rows, uid, base);
    RootsExactly(s, table, uid, p);
    if |path| > 1 {
      BelongsOn(s, table, uid, path, p);
      BelongingIsOwned(s, table, uid, path[1..], path[1]);
      assert Inherits(s, rows, uid, Closure(s, rows, uid, base), p);
    }
  }

  ghost predicate BelongsSomehow(s: Scope, table: Table, uid: int, p: Pid) {
    exists path :: Belongs(s, table, uid, path, p)
  }

  lemma OwnedBelong(s: Scope, table: Table, uid: int)
    ensures var rows := Visible(s, table);
      forall p :: p in Closure(s, rows, uid, Anchors(s, rows, uid) + Grouped(s, rows, uid)) ==>
        BelongsSomehow(s, table, uid, p)
  {
    var rows := Visible(s, table);
    var base := Anchors(s, rows, uid) + Grouped(s, rows, uid);
    var c := set p | p in rows && BelongsSomehow(s, table, uid, p);
    ClosureIsLeast(s, rows, uid, base);
    forall p | p in base ensures p in c {
      RootsExactly(s, table, uid, p);
      assert Belongs(s, table, uid, [p], p);
    }
    forall p | p in rows && Inherits(s, rows, uid, c, p) ensures p in c {
      RootsExactly(s, table, uid, p);
      var path :| Belongs(s, table, uid, path, rows[p].ppid);
      BelongsMore(s, table, uid, path, p);
    }
    assert Closed(s, rows, uid, c);
  }

  /** The members of a job as a probe sees them: nobody if no remembered process is left, and
      otherwise whoever such a chain leads from. */
  lemma OwnedExactly(s: Scope, table: Table, uid: int, p: Pid)
    ensures p in Owned(s, table, uid) <==>
      (exists q :: IsAnchor(s, table, uid, q)) && exists path :: Belongs(s, table, uid, path, p)
  {
    var rows := Visible(s, table);
    OwnedBelong(s, table, uid);
    if path :| Belongs(s, table, uid, path, p) {
      BelongingIsOwned(s, table, uid, path, p);
    }
    forall q ensures q in Anchors(s, rows, uid) <==> IsAnchor(s, table, uid, q) {
      RootsExactly(s, table, uid, q);
    }
    if Anchors(s, rows, uid) != {} {
      var q := Pick(Anchors(s, rows, uid));
      assert IsAnchor(s, table, uid, q);
    }
  }
}
