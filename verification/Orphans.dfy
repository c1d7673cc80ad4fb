/** Watchdog leases over departed supervisors' groups and the cleanup they may authorise
    (libexec/orphan_recovery.py). The disposability test is an input: `veto`. */
module Orphans {
  import opened Common
  import opened Ownership

  const GRACE: real := 120.0
  const LEASE: real := 90.0
  const MAX_GROUP: nat := 128

  /** The registered facts a scan checks. */
  datatype Record = Record(
    running: bool,
    owner: Pid,
    ownerStart: Start,
    agent: Option<(Pid, Start)>,
    group: Option<Pid>,
    members: map<Pid, Start>,
    footprint: map<Pid, Start>)

  datatype Bound = Unbound | Bound(group: Table) | TooDeep

  function GroupRows(job: Record, table: Table): Table {
    map p | p in table && job.group == Some(table[p].group) :: table[p]
  }

  predicate Alive(table: Table, p: Pid, start: Start) { p in table && table[p].start == start }

  /** The job has lost its supervisor, or the agent session it was started for. */
  predicate Departed(job: Record, table: Table) {
    && job.running
    && (Alive(table, job.owner, job.ownerStart) ==>
        job.agent.Some? && !Alive(table, job.agent.value.0, job.agent.value.1))
  }

  /** A process of the group is one registered by this user. */
  predicate Registered(job: Record, row: Row, p: Pid, uid: int) {
    row.uid == uid && Lookup(job.members, p) == Some(row.start)
  }

  predicate Enclosed(p: Pid, table: Table, group: Table) {
    DescendantsOf(p, table).Some? && DescendantsOf(p, table).value <= group.Keys
  }

  /** No remembered member is still working outside the group. */
  predicate NoneEscaped(job: Record, table: Table, group: Table) {
    forall p :: p in job.footprint && Alive(table, p, job.footprint[p]) ==> p in group
  }

  /** The live group is exactly registered processes of this user with no work outside it. */
  predicate IsBound(job: Record, table: Table, uid: int, group: Table) {
    && group == GroupRows(job, table)
    && Departed(job, table)
    && group != map[] && |group| <= MAX_GROUP
    && (forall p :: p in group ==> Registered(job, group[p], p, uid) && Enclosed(p, table, group))
    && NoneEscaped(job, table, group)
  }

  /** The answers a check may give: rows are visited in no fixed order, so a group that is
      both too deep and unregistered may be reported either way. */
  predicate Answers(job: Record, table: Table, uid: int, b: Bound) {
    var group := GroupRows(job, table);
    match b
    case Bound(g) => IsBound(job, table, uid, g)
    case Unbound => !IsBound(job, table, uid, group)
    case TooDeep => exists p :: p in group && DescendantsOf(p, table) == None
  }

  method CheckBound(job: Record, table: Table, uid: int) returns (b: Bound)
    ensures Answers(job, table, uid, b)
  {
    var group := GroupRows(job, table);
    if !Departed(job, table) || group == map[] || |group| > MAX_GROUP {
      return Unbound;
    }
    var rest := group.Keys;
    while rest != {}
      invariant rest <= group.Keys
      invariant forall p :: p in group && p !in rest ==> Registered(job, group[p], p, uid) && Enclosed(p, table, group)
      decreases |rest|
    {
      var p := Take(rest);
      if !Registered(job, group[p], p, uid) {
        return Unbound;
      }
      var below := Descendants(p, table);
      if below.None? {
        return TooDeep;
      }
      if !(below.value <= group.Keys) {
        return Unbound;
      }
      rest := rest - {p};
    }
    if !NoneEscaped(job, table, group) {
      return Unbound;
    }
    b := Bound(group);
  }

  // -------------------------------------------------------------------- leases

  function Commands(rows: Table): map<Pid, Token> { map p | p in rows :: rows[p].command }

  function Identities(rows: Table): map<Pid, Start> { map p | p in rows :: rows[p].start }

  datatype Lease = Lease(at: real, since: real, members: map<Pid, Start>, commands: map<Pid, Token>, clearSince: real)

  /** The previous lease covers the same processes and has not lapsed. */
  predicate Continues(prior: Option<Lease>, group: Table, now: real) {
    && prior.Some? && prior.value.members == Identities(group) && prior.value.commands == Commands(group)
    && 0.0 <= now - prior.value.at <= LEASE
  }

  function Renewed(prior: Option<Lease>, group: Table, veto: bool, now: real): Lease {
    var continuous := Continues(prior, group, now);
    Lease(now, if continuous then prior.value.since else now, Identities(group), Commands(group),
          if veto || !continuous then now else prior.value.clearSince)
  }

  /** How long the lease has been both held and clear. */
  function QuietSince(l: Lease): real { MaxReal(l.since, l.clearSince) }

  datatype Plan = Plan(at: real, owner: Pid, ownerStart: Start, group: Option<Pid>, members: map<Pid, Start>,
                       commands: map<Pid, Token>)

  /** The recovery fields of a job record. */
  class Recovery {
    var lease: Option<Lease>
    var claims: map<Pid, Start>
    var pinned: bool

    constructor ()
      ensures lease == None && claims == map[] && !pinned
    {
      lease, claims, pinned := None, map[], false;
    }

    /** One watchdog scan. An interrupted scan saves nothing. */
    method Observe(job: Record, table: Table, uid: int, veto: bool, now: real) returns (b: Bound, plan: Option<Plan>)
      modifies `lease
      ensures Answers(job, table, uid, b)
      ensures lease == match b
                       case Unbound => None
                       case TooDeep => old(lease)
                       case Bound(g) => Some(Renewed(old(lease), g, veto, now))
      ensures plan.Some? <==> b.Bound? && !veto && now - QuietSince(lease.value) >= GRACE
      ensures plan.Some? ==>
        plan.value == Plan(now, job.owner, job.ownerStart, job.group, Identities(b.group), Commands(b.group))
    {
      plan := None;
      b := CheckBound(job, table, uid);
      match b {
        case TooDeep =>
        case Unbound =>
          lease := None;
        case Bound(group) =>
          var members, commands := Identities(group), Commands(group);
          var continuous := lease.Some? && lease.value.members == members && lease.value.commands == commands
                            && 0.0 <= now - lease.value.at <= LEASE;
          var since := if continuous then lease.value.since else now;
          var clearSince := now;
          if !veto && continuous {
            clearSince := lease.value.clearSince;
          }
          lease := Some(Lease(now, since, members, commands, clearSince));
          if !veto && now - MaxReal(since, clearSince) >= GRACE {
            plan := Some(Plan(now, job.owner, job.ownerStart, job.group, members, commands));
          }
      }
    }

    /** A session claims or releases the job, or an owner pins or unpins it: any lease ends. */
    method Claim(agent: Option<(Pid, Start)>, pin: Option<bool>, release: bool) returns (accepted: bool)
      modifies this
      ensures accepted <==> pin.Some? || agent.Some?
      ensures accepted ==> lease == None
      ensures accepted && pin.Some? ==> pinned == pin.value && claims == old(claims)
      ensures accepted && pin.None? ==> pinned == old(pinned)
      ensures accepted && pin.None? ==>
        claims == if release then old(claims) - {agent.value.0} else old(claims)[agent.value.0 := agent.value.1]
      ensures !accepted ==> lease == old(lease) && pinned == old(pinned) && claims == old(claims)
    {
      if pin.Some? {
        pinned := pin.value;
      } else if agent.None? {
        return false;
      } else if release {
        claims := claims - {agent.value.0};
      } else {
        claims := claims[agent.value.0 := agent.value.1];
      }
      lease := None;
      accepted := true;
    }
  }

  // ------------------------------------------------------------- authorisation

  predicate Recovered(lease: Option<Lease>, b: Bound, now: real) {
    b.Bound? && lease.Some? && 0.0 <= now - lease.value.at <= LEASE && lease.value.members == Identities(b.group)
  }

  /** During escalation the survivors of the leased group suffice. */
  predicate Held(lease: Option<Lease>, b: Bound, now: real, escalating: bool) {
    || Recovered(lease, b, now)
    || (escalating && b.Bound? && lease.Some? && 0.0 <= now - lease.value.at <= LEASE)
  }

  predicate Matches(plan: Plan, job: Record, b: Bound, escalating: bool) {
    && b.Bound?
    && plan.owner == job.owner && plan.ownerStart == job.ownerStart && plan.group == job.group
    && b.group.Keys <= plan.members.Keys && (escalating || b.group.Keys == plan.members.Keys)
    && forall p :: p in b.group ==>
       plan.members[p] == b.group[p].start && Lookup(plan.commands, p) == Some(b.group[p].command)
  }

  /** The processes a proposal may act on now; none unless every check passes. */
  function Authorize(plan: Plan, job: Record, lease: Option<Lease>, b: Bound, veto: bool, now: real, escalating: bool,
                     paused: bool): set<Pid> {
    if paused || !(0.0 <= now - plan.at <= 30.0) then {}
    else if !Held(lease, b, now, escalating) || veto || !Matches(plan, job, b, escalating) then {}
    else if now - QuietSince(lease.value) < GRACE then {}
    else b.group.Keys
  }

  // ---------------------------------------------------------------- histories

  /** What happens to one job's lease: scans, and claims that end it. */
  datatype Event =
    | Scan(job: Record, table: Table, uid: int, found: Bound, veto: bool, now: real)
    | Claimed

  predicate ValidEvent(e: Event) { e.Scan? ==> Answers(e.job, e.table, e.uid, e.found) }

  function LeaseAfter(events: seq<Event>): Option<Lease> {
    if events == [] then None else
    var before := LeaseAfter(events[..|events| - 1]);
    match events[|events| - 1]
    case Claimed => None
    case Scan(_, _, _, Unbound, _, _) => None
    case Scan(_, _, _, TooDeep, _, _) => before
    case Scan(_, _, _, Bound(g), veto, now) => Some(Renewed(before, g, veto, now))
  }

  /** A scan that found the group bound. */
  datatype Sighting = Sighting(now: real, members: map<Pid, Start>, commands: map<Pid, Token>, veto: bool)

  /** An event after which earlier sightings no longer count. */
  predicate Breaks(e: Event) { e.Claimed? || e.found.Unbound? }

  function Sightings(events: seq<Event>): seq<Sighting> {
    if events == [] then [] else
    var e := events[|events| - 1];
    var before := Sightings(events[..|events| - 1]);
    if e.Scan? && e.found.Bound?
    then before + [Sighting(e.now, Identities(e.found.group), Commands(e.found.group), e.veto)]
    else before
  }

  /** Consecutive sightings of the same processes at most one lease apart. */
  predicate Unbroken(chain: seq<Sighting>) {
    forall k :: 0 < k < |chain| ==>
      && chain[k].members == chain[k - 1].members && chain[k].commands == chain[k - 1].commands
      && 0.0 <= chain[k].now - chain[k - 1].now <= LEASE
  }

  /** Every scan of the chain continued the one before, the lease dates from the first of
      them, and its clear time from scan c: the last veto, or that first scan. */
  predicate Covers(chain: seq<Sighting>, lease: Lease, c: nat) {
    && c < |chain| && Unbroken(chain)
    && lease.since == chain[0].now && lease.clearSince == chain[c].now
    && lease.at == chain[|chain| - 1].now
    && lease.members == chain[|chain| - 1].members && lease.commands == chain[|chain| - 1].commands
    && (forall k :: c < k < |chain| ==> !chain[k].veto)
  }

  predicate NothingBroke(events: seq<Event>, i: nat) {
    i <= |events| && forall k :: i <= k < |events| ==> !Breaks(events[k])
  }

  /** From event i on nothing broke, and the scans since then cover the lease. */
  ghost predicate Witnessed(events: seq<Event>, lease: Lease, i: nat, c: nat) {
    && NothingBroke(events, i)
    && Covers(Sightings(events[i..]), lease, c)
  }

  lemma SightingsExtend(events: seq<Event>, i: nat)
    requires i < |events|
    ensures var e := events[|events| - 1];
      Sightings(events[i..]) == Sightings(events[..|events| - 1][i..])
        + (if e.Scan? && e.found.Bound?
           then [Sighting(e.now, Identities(e.found.group), Commands(e.found.group), e.veto)] else [])
  {
    var tail := events[i..];
    assert tail[..|tail| - 1] == events[..|events| - 1][i..];
  }

  function Seen(e: Event): Sighting
    requires e.Scan? && e.found.Bound?
  {
    Sighting(e.now, Identities(e.found.group), Commands(e.found.group), e.veto)
  }

  lemma CoversExtends(chain: seq<Sighting>, lease: Lease, c: nat, group: Table, veto: bool, now: real)
    requires Covers(chain, lease, c) && Continues(Some(lease), group, now)
    ensures Covers(chain + [Sighting(now, Identities(group), Commands(group), veto)],
                   Renewed(Some(lease), group, veto, now), if veto then |chain| else c)
  {
  }

  lemma StillUnbroken(events: seq<Event>, i: nat)
    requires events != [] && !Breaks(events[|events| - 1]) && NothingBroke(events[..|events| - 1], i)
    ensures NothingBroke(events, i)
  {
    var front := events[..|events| - 1];
    assert forall k :: i <= k < |events| - 1 ==> front[k] == events[k];
  }

  /** A scan that was interrupted changes nothing. */
  lemma WitnessKept(events: seq<Event>, lease: Lease, i: nat, c: nat)
    requires events != [] && events[|events| - 1].Scan? && events[|events| - 1].found.TooDeep?
    requires Witnessed(events[..|events| - 1], lease, i, c)
    ensures Witnessed(events, lease, i, c)
  {
    SightingsExtend(events, i);
    StillUnbroken(events, i);
  }

  /** A scan that continues the lease extends its chain. */
  lemma WitnessExtends(events: seq<Event>, e: Event, lease: Lease, i: nat, c: nat)
    requires events != [] && e == events[|events| - 1] && e.Scan? && e.found.Bound?
    requires Witnessed(events[..|events| - 1], lease, i, c) && Continues(Some(lease), e.found.group, e.now)
    ensures Witnessed(events, Renewed(Some(lease), e.found.group, e.veto, e.now), i,
                      if e.veto then |Sightings(events[..|events| - 1][i..])| else c)
  {
    SightingsExtend(events, i);
    StillUnbroken(events, i);
    CoversExtends(Sightings(events[..|events| - 1][i..]), lease, c, e.found.group, e.veto, e.now);
  }

  /** A scan that starts a lease witnesses it alone. */
  lemma WitnessStarts(events: seq<Event>, before: Option<Lease>)
    requires var n := |events| - 1;
      n >= 0 && events[n].Scan? && events[n].found.Bound? && !Continues(before, events[n].found.group, events[n].now)
    ensures var e := events[|events| - 1];
      Witnessed(events, Renewed(before, e.found.group, e.veto, e.now), |events| - 1, 0)
  {
    var n := |events| - 1;
    var tail := events[n..];
    assert tail[..0] == [] && Sightings([]) == [];
    assert Sightings(tail) == [Seen(events[n])];
  }

  /** Every lease on record is witnessed by an unbroken chain of scans. */
  lemma {:induction false} LeaseIsWitnessed(events: seq<Event>) returns (i: nat, c: nat)
    requires LeaseAfter(events).Some?
    ensures Witnessed(events, LeaseAfter(events).value, i, c)
  {
    var n := |events| - 1;
    var e := events[n];
    var before := LeaseAfter(events[..n]);
    if e.found.TooDeep? {
      i, c := LeaseIsWitnessed(events[..n]);
      WitnessKept(events, before.value, i, c);
    } else if Continues(before, e.found.group, e.now) {
      i, c := LeaseIsWitnessed(events[..n]);
      WitnessExtends(events, e, before.value, i, c);
      c := if e.veto then |Sightings(events[..n][i..])| else c;
    } else {
      WitnessStarts(events, before);
      i, c := n, 0;
    }
  }

  /** Orphan authorisation. If anything is authorised, an unbroken chain of scans of the
      same processes, begun at least the grace period ago and not broken by any claim,
      release or pin since, ends within one lease of now; every veto in it is at least the
      grace period old; and the processes returned carry their registered identities. */
  lemma AuthorisedOnlyAfterGrace(events: seq<Event>, plan: Plan, job: Record, table: Table, uid: int, b: Bound,
                                 veto: bool, now: real, escalating: bool, paused: bool) returns (i: nat, c: nat)
    requires Answers(job, table, uid, b) && forall e :: e in events ==> ValidEvent(e)
    requires Authorize(plan, job, LeaseAfter(events), b, veto, now, escalating, paused) != {}
    ensures LeaseAfter(events).Some? && Witnessed(events, LeaseAfter(events).value, i, c)
    ensures var chain := Sightings(events[i..]);
      && chain[0].now <= now - GRACE && chain[c].now <= now - GRACE
      && 0.0 <= now - chain[|chain| - 1].now <= LEASE
      && !paused && !veto && 0.0 <= now - plan.at <= 30.0
      && (!escalating ==> chain[|chain| - 1].members == Identities(GroupRows(job, table)))
    ensures forall k :: i <= k < |events| && events[k].found.Bound? ==>
      IsBound(events[k].job, events[k].table, events[k].uid, events[k].found.group)
    ensures forall p :: p in Authorize(plan, job, LeaseAfter(events), b, veto, now, escalating, paused) ==>
      && p in table && table[p].uid == uid && Some(table[p].group) == job.group
      && Lookup(job.members, p) == Some(table[p].start)
      && Lookup(plan.members, p) == Some(table[p].start) && Lookup(plan.commands, p) == Some(table[p].command)
  {
    i, c := LeaseIsWitnessed(events);
    forall k | i <= k < |events| && events[k].found.Bound?
      ensures IsBound(events[k].job, events[k].table, events[k].uid, events[k].found.group)
    {
      assert events[k] in events;
    }
  }

  /** A claim, release or pin leaves nothing of the earlier chain: what is on record
      afterwards comes from later scans alone. */
  lemma {:induction false} ClaimRestarts(events: seq<Event>, later: seq<Event>)
    ensures LeaseAfter(events + [Claimed] + later) == LeaseAfter(later)
  {
    var all := events + [Claimed] + later;
    if later == [] {
      assert all[..|all| - 1] == events && all[|all| - 1] == Claimed;
    } else {
      assert all[..|all| - 1] == events + [Claimed] + later[..|later| - 1];
      ClaimRestarts(events, later[..|later| - 1]);
    }
  }
}
