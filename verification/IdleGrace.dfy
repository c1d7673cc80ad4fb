/** When an idle process may be stopped, said of the scans alone (scan and authorize in
    libexec/idle_gc.py). */
module IdleGrace {
  import opened Common
  import opened Ownership
  import opened IdleCollector

  // --------------------------------------------------------------- owning agent

  /** Parent links from a process up to another, nobody on the way but the last an agent. */
  predicate Climbs(path: seq<Pid>, pid: Pid, table: Table, agents: set<Pid>, agent: Pid) {
    && 1 <= |path| <= 64 && path[0] == pid && path[|path| - 1] == agent && agent in agents
    && (forall k :: 0 <= k < |path| ==> path[k] in table)
    && (forall k :: 0 <= k < |path| - 1 ==> path[k + 1] == table[path[k]].ppid && path[k] !in agents)
  }

  lemma {:induction false} AncestorIsOn(path: seq<Pid>, pid: Pid, table: Table, agents: set<Pid>, agent: Pid, k: nat)
    requires Climbs(path, pid, table, agents, agent) && k < |path|
    ensures Ancestor(pid, table, k) == Some(path[k])
  {
    if k > 0 {
      AncestorIsOn(path, pid, table, agents, agent, k - 1);
    }
  }

  lemma {:induction false} PathOf(pid: Pid, table: Table, k: nat) returns (path: seq<Pid>)
    requires Ancestor(pid, table, k).Some?
    ensures |path| == k + 1 && path[0] == pid
    ensures forall j :: 0 <= j <= k ==> path[j] in table && Ancestor(pid, table, j) == Some(path[j])
    ensures forall j :: 0 <= j < k ==> path[j + 1] == table[path[j]].ppid
  {
    if k == 0 {
      path := [pid];
    } else {
      var front := PathOf(pid, table, k - 1);
      path := front + [Ancestor(pid, table, k).value];
    }
  }

  /** The owner of a process is the agent that such a chain of at most 64 leads to. */
  lemma OwnerExactly(pid: Pid, table: Table, agents: set<Pid>, agent: Pid)
    ensures IsOwner(pid, table, agents, agent) <==> exists path :: Climbs(path, pid, table, agents, agent)
  {
    if IsOwner(pid, table, agents, agent) {
      var k: nat :| k < ANCESTRY && Ancestor(pid, table, k) == Some(agent) && agent in agents
        && forall j: nat :: j < k ==> Ancestor(pid, table, j).Some? && Ancestor(pid, table, j).value !in agents;
      var path := PathOf(pid, table, k);
      assert Climbs(path, pid, table, agents, agent);
    }
    if path :| Climbs(path, pid, table, agents, agent) {
      var k := |path| - 1;
      forall j: nat | j <= k ensures Ancestor(pid, table, j) == Some(path[j]) {
        AncestorIsOn(path, pid, table, agents, agent, j);
      }
    }
  }

  // --------------------------------------------------------------------- quiet

  /** The same processes, each with at most two seconds more CPU, and all together too. */
  ghost predicate Still(before: Signature, after: Signature) {
    && (forall p :: p in before <==> p in after)
    && (forall p :: p in before && p in after ==>
          && before[p].start == after[p].start && before[p].command == after[p].command
          && before[p].cpu <= after[p].cpu <= before[p].cpu + 2.0)
    && (before.Keys == after.Keys ==> Growth(before.Keys, before, after) <= 2.0)
  }

  lemma SameKeys(a: Signature, b: Signature)
    ensures a.Keys == b.Keys <==> forall p :: p in a <==> p in b
  {
    if forall p :: p in a <==> p in b {
      forall p ensures p in a.Keys <==> p in b.Keys {
        assert p in a <==> p in b;
      }
    }
    if a.Keys == b.Keys {
      forall p ensures p in a <==> p in b {
        assert p in a.Keys <==> p in b.Keys;
      }
    }
  }

  lemma StillExactly(before: Signature, after: Signature)
    ensures IsQuiet(before, after) <==> Still(before, after)
  {
    SameKeys(before, after);
  }

  // ---------------------------------------------------------------------- scans

  /** What one scan saw of a process that it found disposable. */
  datatype Sight = Sight(now: real, owner: Option<Pid>, kind: Token, members: set<Pid>, sign: Signature)

  function SightOf(e: Change, root: Pid): Sight
    requires e.Scanned? && root in e.matches
  {
    var m := e.matches[root];
    Sight(e.now, m.owner, m.kind, m.members,
          map p | p in m.observed && p in e.table ::
            Sign(e.table[p].start, e.table[p].command, if p in e.cpu then e.cpu[p] else 0.0))
  }

  /** The sights of a process since it was last not disposable, or its owner's sessions last moved. */
  function Seen(changes: seq<Change>, root: Pid): seq<Sight> {
    if changes == [] then []
    else
      var before := Seen(changes[..|changes| - 1], root);
      match changes[|changes| - 1]
      case Lifecycle(agent) => if before != [] && before[|before| - 1].owner == Some(agent) then [] else before
      case Scanned(_, _, matches, _) =>
        if root in matches then before + [SightOf(changes[|changes| - 1], root)] else []
  }

  /** A sight goes on from the one before it and from the baseline: for the same owner and
      kind, still, and no later than the grace period and a minute. */
  ghost predicate GoesOn(base: Sight, prior: Sight, next: Sight, grace: real) {
    && prior.owner == next.owner && prior.kind == next.kind && Still(base.sign, next.sign)
    && prior.now <= next.now <= prior.now + grace + 60.0
  }

  /** Sight a is the baseline: each later one goes on from it, and it did not from an earlier one. */
  ghost function Baseline(seen: seq<Sight>, grace: real): (a: nat)
    requires seen != []
    ensures a < |seen|
  {
    var n := |seen| - 1;
    if n == 0 then 0
    else
      var a := Baseline(seen[..n], grace);
      if GoesOn(seen[a], seen[n - 1], seen[n], grace) then a else n
  }

  ghost predicate CandidateOf(seen: seq<Sight>, grace: real, c: Candidate)
    requires seen != []
  {
    var base, last := seen[Baseline(seen, grace)], seen[|seen| - 1];
    c == Candidate(last.owner, last.kind, last.members, base.sign, base.now, last.now)
  }

  lemma SightIsSignature(e: Change, root: Pid)
    requires e.Scanned? && root in e.matches
    ensures SightOf(e, root).sign == SignatureOf(e.matches[root].observed, e.table, e.cpu)
  {
    var a, b := SightOf(e, root).sign, SignatureOf(e.matches[root].observed, e.table, e.cpu);
    assert a.Keys == b.Keys;
    forall p | p in a ensures a[p] == b[p] {
    }
  }

  lemma CandidateOn(seen: seq<Sight>, grace: real, c: Candidate, e: Change, root: Pid)
    requires seen != [] && CandidateOf(seen, grace, c) && e.Scanned? && root in e.matches
    ensures CandidateOf(seen + [SightOf(e, root)], grace,
                        Next(Some(c), e.matches[root], SignatureOf(e.matches[root].observed, e.table, e.cpu), e.now,
                             grace))
  {
    var x := SightOf(e, root);
    var more := seen + [x];
    assert more[..|seen|] == seen;
    SightIsSignature(e, root);
    StillExactly(c.signature, x.sign);
  }

  /** Every candidate, from the scans and events alone. */
  lemma {:induction false} CandidateExactly(grace: real, changes: seq<Change>, root: Pid)
    ensures var all, seen := CandidatesAfter(grace, changes), Seen(changes, root);
      (root in all <==> seen != []) && (root in all ==> CandidateOf(seen, grace, all[root]))
  {
    if changes != [] {
      var front, e := changes[..|changes| - 1], changes[|changes| - 1];
      CandidateExactly(grace, front, root);
      var before := CandidatesAfter(grace, front);
      if e.Scanned? && root in e.matches {
        if root in before {
          CandidateOn(Seen(front, root), grace, before[root], e, root);
        } else {
          SightIsSignature(e, root);
          assert [] + [SightOf(e, root)] == [SightOf(e, root)];
        }
      }
    }
  }

  /** Exactly when a candidate lets a process be stopped: it is one of those last found with
      it; the last sight is at most thirty seconds old and the baseline a grace period; and the
      candidate is disposable now and still since its baseline. */
  lemma LicensedExactly(grace: real, changes: seq<Change>, root: Pid, pid: Pid, table: Table, cpu: map<Pid, real>,
                        matches: map<Pid, Match>, now: real)
    ensures Licensed(CandidatesAfter(grace, changes), root, pid, table, cpu, matches, now, grace) <==>
      var seen := Seen(changes, root);
      && seen != [] && root in table && root in matches
      && var base, last := seen[Baseline(seen, grace)], seen[|seen| - 1];
      && pid in last.members && last.now <= now <= last.now + 30.0 && now >= base.now + grace
      && Still(base.sign, SightOf(Scanned(table, cpu, matches, now), root).sign)
  {
    CandidateExactly(grace, changes, root);
    var seen := Seen(changes, root);
    if seen != [] && root in matches {
      var sign := SignatureOf(matches[root].observed, table, cpu);
      SightIsSignature(Scanned(table, cpu, matches, now), root);
      StillExactly(seen[Baseline(seen, grace)].sign, sign);
    }
  }
}
