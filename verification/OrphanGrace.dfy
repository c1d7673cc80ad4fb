/** When orphaned processes may be stopped, said of the scans alone (observe and authorize in
    libexec/orphan_recovery.py). */
module OrphanGrace {
  import opened Common
  import opened Ownership
  import opened Orphans

  // ---------------------------------------------------------------------- bound

  predicate Here(table: Table, p: Pid, start: Start) { p in table && table[p].start == start }

  /** It runs, and its supervisor is gone, or the agent it was started for. */
  predicate Abandoned(job: Record, table: Table) {
    job.running && (!Here(table, job.owner, job.ownerStart)
                    || (job.agent.Some? && !Here(table, job.agent.value.0, job.agent.value.1)))
  }

  /** A process of the job's group, registered under this user, all whose descendants are in
      that group too, less than 64 links below it. */
  ghost predicate Accounted(job: Record, table: Table, uid: int, p: Pid) {
    && p in table && table[p].uid == uid && p in job.members && job.members[p] == table[p].start
    && forall q :: Descends(p, q, table) ==>
         && q in table && job.group.Some? && table[q].group == job.group.value
         && exists links: nat :: links < 64 && DescendsIn(p, q, table, links)
  }

  ghost predicate IsGroup(job: Record, table: Table, group: Table) {
    && (forall p :: p in group <==> p in table && job.group.Some? && table[p].group == job.group.value)
    && (forall p :: p in group ==> p in table && group[p] == table[p])
  }

  lemma GroupExactly(job: Record, table: Table, group: Table)
    ensures group == GroupRows(job, table) <==> IsGroup(job, table, group)
  {
    if IsGroup(job, table, group) {
      SameRows(group, GroupRows(job, table));
    }
  }

  lemma SameRows(a: Table, b: Table)
    requires (forall p :: p in a <==> p in b) && forall p :: p in a ==> a[p] == b[p]
    ensures a == b
  {
    SameKeys(a, b);
    forall p | p in a.Keys ensures a[p] == b[p] {
      assert p in a;
    }
  }

  lemma SameKeys<T, U>(a: map<Pid, T>, b: map<Pid, U>)
    ensures (forall p :: p in a ==> p in b) <==> a.Keys <= b.Keys
    ensures (forall p :: p in a <==> p in b) ==> a.Keys == b.Keys
  {
    if forall p :: p in a ==> p in b {
      forall p | p in a.Keys ensures p in b.Keys {
        assert p in a;
      }
    }
    if forall p :: p in a <==> p in b {
      forall p ensures p in a.Keys <==> p in b.Keys {
        assert p in a <==> p in b;
      }
    }
    if a.Keys <= b.Keys {
      forall p | p in a ensures p in b {
        assert p in a.Keys;
      }
    }
  }

  lemma DescendantsExactly(p: Pid, table: Table)
    ensures DescendantsOf(p, table).Some? <==>
      forall q :: Descends(p, q, table) ==> exists links: nat :: links < 64 && DescendsIn(p, q, table, links)
    ensures DescendantsOf(p, table).Some? ==>
      forall q :: q in DescendantsOf(p, table).value <==> Descends(p, q, table)
  {
    var all := Within(p, table, DEPTH - 1);
    if Wave(all, table) <= all {
      StoppedSearch(p, table, DEPTH - 1);
    } else {
      DeepSearch(p, table);
      var q :| FarOnly(p, q, table);
    }
  }

  lemma EnclosedExactly(job: Record, table: Table, uid: int, p: Pid)
    requires p in GroupRows(job, table)
    ensures Registered(job, table[p], p, uid) && Enclosed(p, table, GroupRows(job, table))
      <==> Accounted(job, table, uid, p)
  {
    var group := GroupRows(job, table);
    DescendantsExactly(p, table);
    GroupExactly(job, table, group);
    if Enclosed(p, table, group) {
      forall q | Descends(p, q, table) ensures q in group {
        assert q in DescendantsOf(p, table).value && q in group.Keys;
      }
    }
    if Accounted(job, table, uid, p) {
      forall q | q in DescendantsOf(p, table).value ensures q in group.Keys {
        assert Descends(p, q, table) && q in group;
      }
    }
  }

  predicate EachEnclosed(job: Record, table: Table, uid: int, group: Table) {
    forall p :: p in group ==> Registered(job, group[p], p, uid) && Enclosed(p, table, group)
  }

  ghost predicate EachAccounted(job: Record, table: Table, uid: int, group: Table) {
    forall p :: p in group ==> Accounted(job, table, uid, p)
  }

  lemma EachExactly(job: Record, table: Table, uid: int, group: Table)
    requires group == GroupRows(job, table)
    ensures EachEnclosed(job, table, uid, group) <==> EachAccounted(job, table, uid, group)
  {
    forall p | p in group
      ensures group[p] == table[p]
      ensures Registered(job, table[p], p, uid) && Enclosed(p, table, group) <==> Accounted(job, table, uid, p)
    {
      EnclosedExactly(job, table, uid, p);
    }
    if EachEnclosed(job, table, uid, group) {
      forall p | p in group ensures Accounted(job, table, uid, p) {
        assert Registered(job, group[p], p, uid);
      }
    }
  }

  /** Exactly when a group is bound: the job is abandoned, its live group has one to 128
      processes, each accounted for, and no process remembered for it lives outside. */
  lemma BoundExactly(job: Record, table: Table, uid: int, group: Table)
    ensures IsBound(job, table, uid, group) <==>
      && IsGroup(job, table, group) && Abandoned(job, table) && 1 <= |group| <= 128
      && EachAccounted(job, table, uid, group)
      && (forall p :: p in job.footprint && Here(table, p, job.footprint[p]) ==> p in group)
  {
    GroupExactly(job, table, group);
    if group == GroupRows(job, table) {
      EachExactly(job, table, uid, group);
      assert group != map[] <==> |group| >= 1;
      assert Departed(job, table) <==> Abandoned(job, table);
      assert NoneEscaped(job, table, group)
        <==> forall p :: p in job.footprint && Here(table, p, job.footprint[p]) ==> p in group;
    }
  }

  // ---------------------------------------------------------------------- leases

  function Starts(rows: Table): map<Pid, Start> { map p | p in rows :: rows[p].start }

  function Words(rows: Table): map<Pid, Token> { map p | p in rows :: rows[p].command }

  /** Scans that found the group bound, since it was last claimed or not bound. */
  function Seen(events: seq<Event>): seq<Sighting> {
    if events == [] then []
    else
      var before := Seen(events[..|events| - 1]);
      match events[|events| - 1]
      case Claimed => []
      case Scan(_, _, _, Unbound, _, _) => []
      case Scan(_, _, _, TooDeep, _, _) => before
      case Scan(_, _, _, Bound(g), veto, now) => before + [Sighting(now, Starts(g), Words(g), veto)]
  }

  /** The same processes, at most ninety seconds later. */
  predicate Joined(a: Sighting, b: Sighting) {
    a.members == b.members && a.commands == b.commands && a.now <= b.now <= a.now + 90.0
  }

  predicate JoinsLast(seen: seq<Sighting>, k: nat)
    requires 0 < k < |seen|
  {
    Joined(seen[k - 1], seen[k])
  }

  /** From sighting a on, each joins the one before; before that there is a break. */
  predicate RunsFrom(seen: seq<Sighting>, a: nat) {
    && a < |seen| && (forall k :: a < k < |seen| ==> JoinsLast(seen, k))
    && (a > 0 ==> !JoinsLast(seen, a))
  }

  /** The last vetoed sighting since a, or a itself. */
  predicate ClearFrom(seen: seq<Sighting>, a: nat, c: nat) {
    && a <= c < |seen| && (c == a || seen[c].veto) && forall k :: c < k < |seen| ==> !seen[k].veto
  }

  /** The lease dates from the beginning of that run, and its clear time from its last veto. */
  predicate LeaseOf(seen: seq<Sighting>, a: nat, c: nat, lease: Lease) {
    && RunsFrom(seen, a) && ClearFrom(seen, a, c)
    && lease.at == seen[|seen| - 1].now && lease.since == seen[a].now && lease.clearSince == seen[c].now
    && lease.members == seen[|seen| - 1].members && lease.commands == seen[|seen| - 1].commands
  }

  lemma SeenOn(seen: seq<Sighting>, a: nat, c: nat, lease: Lease, group: Table, veto: bool, now: real)
    returns (a': nat, c': nat)
    requires LeaseOf(seen, a, c, lease)
    ensures LeaseOf(seen + [Sighting(now, Starts(group), Words(group), veto)], a', c',
                    Renewed(Some(lease), group, veto, now))
  {
    var x := Sighting(now, Starts(group), Words(group), veto);
    var more := seen + [x];
    assert Identities(group) == Starts(group) && Commands(group) == Words(group);
    assert Continues(Some(lease), group, now) <==> Joined(seen[|seen| - 1], x);
    if Joined(seen[|seen| - 1], x) {
      a' := a;
      c' := if veto then |seen| else c;
      forall k | a < k < |seen| ensures JoinsLast(more, k) {
        assert JoinsLast(seen, k);
      }
    } else {
      a', c' := |seen|, |seen|;
    }
  }

  /** Every lease, from the scans alone. */
  lemma {:induction false} LeaseExactly(events: seq<Event>) returns (a: nat, c: nat)
    ensures LeaseAfter(events).None? <==> Seen(events) == []
    ensures LeaseAfter(events).Some? ==> LeaseOf(Seen(events), a, c, LeaseAfter(events).value)
  {
    a, c := 0, 0;
    if events != [] {
      var n := |events| - 1;
      a, c := LeaseExactly(events[..n]);
      var e := events[n];
      if e.Scan? && e.found.Bound? {
        var before := LeaseAfter(events[..n]);
        if before.Some? {
          a, c := SeenOn(Seen(events[..n]), a, c, before.value, e.found.group, e.veto, e.now);
        } else {
          a, c := 0, 0;
          assert Identities(e.found.group) == Starts(e.found.group);
          assert Commands(e.found.group) == Words(e.found.group);
        }
      }
    }
  }

  // --------------------------------------------------------------- authorisation

  /** The proposal is of this supervisor and group and names each process as it is now, and
      before escalation nobody else. */
  predicate Proposes(plan: Plan, job: Record, group: Table, escalating: bool) {
    && plan.owner == job.owner && plan.ownerStart == job.ownerStart && plan.group == job.group
    && (forall p :: p in group ==>
          && p in plan.members && plan.members[p] == group[p].start
          && p in plan.commands && plan.commands[p] == group[p].command)
    && (!escalating ==> forall p :: p in plan.members ==> p in group)
  }

  /** Sightings that allow it at a moment: the last is at most ninety seconds old, of these
      processes before escalation, and the run and its last veto are two minutes back. */
  predicate Allow(seen: seq<Sighting>, a: nat, c: nat, group: Table, now: real, escalating: bool) {
    && seen != [] && RunsFrom(seen, a) && ClearFrom(seen, a, c)
    && seen[|seen| - 1].now <= now <= seen[|seen| - 1].now + 90.0
    && (!escalating ==> seen[|seen| - 1].members == Starts(group))
    && now >= seen[a].now + 120.0 && now >= seen[c].now + 120.0
  }

  /** Exactly which processes may be stopped, and when. */
  lemma AuthorisedExactly(events: seq<Event>, plan: Plan, job: Record, b: Bound, veto: bool, now: real,
                          escalating: bool, paused: bool, p: Pid) returns (a: nat, c: nat)
    ensures p in Authorize(plan, job, LeaseAfter(events), b, veto, now, escalating, paused) <==>
      && !paused && !veto && b.Bound? && p in b.group && plan.at <= now <= plan.at + 30.0
      && Proposes(plan, job, b.group, escalating) && Allow(Seen(events), a, c, b.group, now, escalating)
  {
    a, c := LeaseExactly(events);
    if b.Bound? {
      assert Identities(b.group) == Starts(b.group);
      MatchesExactly(plan, job, b, escalating);
    }
  }

  lemma MatchesExactly(plan: Plan, job: Record, b: Bound, escalating: bool)
    requires b.Bound?
    ensures Matches(plan, job, b, escalating) <==> Proposes(plan, job, b.group, escalating)
  {
    SameKeys(b.group, plan.members);
    SameKeys(plan.members, b.group);
  }

  /** A scan proposes exactly what it could authorise at once: a bound group, no veto, and a
      run that with its last veto is two minutes back. */
  lemma ProposedExactly(events: seq<Event>, now: real) returns (a: nat, c: nat)
    requires LeaseAfter(events).Some?
    ensures now - QuietSince(LeaseAfter(events).value) >= GRACE <==>
      && RunsFrom(Seen(events), a) && ClearFrom(Seen(events), a, c)
      && now >= Seen(events)[a].now + 120.0 && now >= Seen(events)[c].now + 120.0
  {
    a, c := LeaseExactly(events);
  }
}
