/** Grace periods for idle helper processes (Collector in libexec/idle_gc.py).
    Which process is a candidate at all is an input: the matches of each scan. */
module IdleCollector {
  import opened Common
  import opened Ownership

  // --------------------------------------------------------------- owning agent

  const ANCESTRY: nat := 64

  /** The k-th ancestor of a process, itself at k == 0, while the table knows it. */
  function Ancestor(pid: Pid, table: Table, k: nat): Option<Pid> {
    if k == 0 then (if pid in table then Some(pid) else None)
    else
      match Ancestor(pid, table, k - 1)
      case None => None
      case Some(p) => if table[p].ppid in table then Some(table[p].ppid) else None
  }

  /** The nearest agent among the first 64 ancestors. */
  ghost predicate IsOwner(pid: Pid, table: Table, agents: set<Pid>, agent: Pid) {
    exists k: nat :: k < ANCESTRY && Ancestor(pid, table, k) == Some(agent) && agent in agents
      && forall j: nat :: j < k ==> Ancestor(pid, table, j).Some? && Ancestor(pid, table, j).value !in agents
  }

  /** Once the chain meets a process again it stays among those already seen. */
  lemma {:induction false} CycleStays(pid: Pid, table: Table, seen: set<Pid>, k: nat, m: nat)
    requires k <= m && Ancestor(pid, table, k).Some? && Ancestor(pid, table, k).value in seen
    requires forall p :: p in seen ==> p in table && (table[p].ppid in seen || table[p].ppid !in table)
    ensures Ancestor(pid, table, m).Some? ==> Ancestor(pid, table, m).value in seen
    decreases m
  {
    if k < m {
      CycleStays(pid, table, seen, k, m - 1);
    }
  }

  lemma {:induction false} LostStaysLost(pid: Pid, table: Table, k: nat, m: nat)
    requires k <= m && Ancestor(pid, table, k).None?
    ensures Ancestor(pid, table, m).None?
    decreases m
  {
    if k < m {
      LostStaysLost(pid, table, k, m - 1);
    }
  }

  /** Walk up to the agent a process belongs to. */
  method Owner(pid: Pid, table: Table, agents: set<Pid>) returns (agent: Option<Pid>)
    ensures agent.Some? ==> IsOwner(pid, table, agents, agent.value)
    ensures agent.None? ==> forall a :: !IsOwner(pid, table, agents, a)
  {
    var seen: set<Pid>, at := {}, pid;
    ghost var k: nat := 0;
    while at in table && at !in seen && |seen| < ANCESTRY
      invariant |seen| == k <= ANCESTRY
      invariant Ancestor(pid, table, k) == if at in table then Some(at) else None
      invariant forall j: nat :: j < k ==> Ancestor(pid, table, j).Some? && Ancestor(pid, table, j).value !in agents
      invariant forall p :: p in seen ==> p in table && p !in agents && (table[p].ppid in seen || table[p].ppid == at)
      decreases ANCESTRY - |seen|
    {
      seen := seen + {at};
      if at in agents {
        return Some(at);
      }
      at := table[at].ppid;
      k := k + 1;
    }
    agent := None;
    forall m: nat | k <= m < ANCESTRY
        ensures Ancestor(pid, table, m).Some? ==> Ancestor(pid, table, m).value !in agents {
      if at !in table {
        LostStaysLost(pid, table, k, m);
      } else if at in seen {
        CycleStays(pid, table, seen, k, m);
      }
    }
  }

  // --------------------------------------------------------------- signatures

  datatype Sign = Sign(start: Start, command: Token, cpu: real)

  type Signature = map<Pid, Sign>

  /** CPU time gained over a set of processes, in any order. */
  ghost function Growth(pids: set<Pid>, before: Signature, after: Signature): real
    requires pids <= before.Keys && pids <= after.Keys
  {
    if pids == {} then 0.0
    else
      var p := Pick(pids);
      after[p].cpu - before[p].cpu + Growth(pids - {p}, before, after)
  }

  lemma {:induction false} GrowthRemove(pids: set<Pid>, p: Pid, before: Signature, after: Signature)
    requires p in pids && pids <= before.Keys && pids <= after.Keys
    ensures Growth(pids, before, after) == after[p].cpu - before[p].cpu + Growth(pids - {p}, before, after)
    decreases |pids|
  {
    var q := Pick(pids);
    if q != p {
      GrowthRemove(pids - {q}, p, before, after);
      GrowthRemove(pids - {p}, q, before, after);
      assert pids - {q} - {p} == pids - {p} - {q};
    }
  }

  predicate SameProcesses(before: Signature, after: Signature) {
    && before.Keys == after.Keys
    && forall p :: p in before ==>
         p in after && before[p].start == after[p].start && before[p].command == after[p].command
  }

  /** The same processes, none of which has used more than two seconds of CPU, nor all together. */
  ghost predicate IsQuiet(before: Signature, after: Signature) {
    && SameProcesses(before, after)
    && (forall p :: p in before ==> p in after && 0.0 <= after[p].cpu - before[p].cpu <= 2.0)
    && Growth(before.Keys, before, after) <= 2.0
  }

  method Quiet(before: Signature, after: Signature) returns (quiet: bool)
    ensures quiet <==> IsQuiet(before, after)
  {
    if !SameProcesses(before, after)
       || exists p :: p in before && p in after && !(0.0 <= after[p].cpu - before[p].cpu <= 2.0) {
      return false;
    }
    var total := 0.0;
    var rest := before.Keys;
    while rest != {}
      invariant rest <= before.Keys
      invariant total + Growth(rest, before, after) == Growth(before.Keys, before, after)
      decreases |rest|
    {
      var p := Take(rest);
      GrowthRemove(rest, p, before, after);
      total := total + (after[p].cpu - before[p].cpu);
      rest := rest - {p};
    }
    quiet := total <= 2.0;
  }

  // ---------------------------------------------------------------- collection

  /** What a scan finds disposable: whose it is, its processes, and every process that must stay quiet. */
  datatype Match = Match(owner: Option<Pid>, kind: Token, members: set<Pid>, observed: set<Pid>)

  datatype Candidate = Candidate(owner: Option<Pid>, kind: Token, members: set<Pid>, signature: Signature,
                                 first: real, last: real)

  datatype Session = Session(owner: Pid, start: Start, idle: bool, children: set<Token>, at: real, ended: bool,
                             cwd: Option<Token>)

  datatype Hook = SessionStart | UserPromptSubmit | PreToolUse | PostToolUse | PostToolUseFailure
                | Stop | SessionEnd | SubagentStart | SubagentStop

  const MAX_SESSIONS: nat := 512
  const UNKNOWN_CHILD: Token := 0

  /** A lifecycle event attributed to a verified agent. */
  datatype Payload = Payload(hook: Hook, session: Token, child: Option<Token>, tasksDisposable: bool,
                             cwd: Option<Token>)

  function SignatureOf(pids: set<Pid>, table: Table, cpu: map<Pid, real>): Signature {
    map p | p in pids && p in table :: Sign(table[p].start, table[p].command, Lookup(cpu, p).GetOr(0.0))
  }

  function LiveSessions(sessions: map<(Pid, Token), Session>, table: Table): map<(Pid, Token), Session> {
    map k | k in sessions && sessions[k].owner in table
        && table[sessions[k].owner].start == sessions[k].start :: sessions[k]
  }

  /** Children still running after an event; identities do not carry over to a new process. */
  function ChildrenAfter(before: Option<Session>, e: Payload, start: Start): set<Token> {
    var known: set<Token> := if before.Some? && before.value.start == start then before.value.children else {};
    if e.hook == SubagentStart then known + {e.child.GetOr(UNKNOWN_CHILD)}
    else if e.hook == SubagentStop && e.child.Some? then known - {e.child.value}
    else known
  }

  function EndedAfter(before: Option<Session>, e: Payload): bool {
    e.hook == Stop || e.hook == SessionEnd || (e.hook == SubagentStop && before.Some? && before.value.ended)
  }

  function SessionAfter(before: Option<Session>, e: Payload, agent: Pid, start: Start, now: real): Session {
    var children := ChildrenAfter(before, e, start);
    var ended := EndedAfter(before, e);
    Session(agent, start,
            ended && children == {} && e.tasksDisposable && !(e.child.Some? && e.hook == Stop),
            children, now, ended, e.cwd)
  }

  function SessionsAfter(sessions: map<(Pid, Token), Session>, e: Payload, agent: Pid, table: Table,
                         now: real): map<(Pid, Token), Session>
    requires agent in table
  {
    var live := LiveSessions(sessions, table);
    live[(agent, e.session) := SessionAfter(Lookup(live, (agent, e.session)), e, agent, table[agent].start, now)]
  }

  function Undisturbed(candidates: map<Pid, Candidate>, agent: Pid): map<Pid, Candidate> {
    map p | p in candidates && candidates[p].owner != Some(agent) :: candidates[p]
  }

  /** A match is about live processes, the root among them. */
  predicate Sensible(matches: map<Pid, Match>, table: Table) {
    forall p :: p in matches ==> p in matches[p].members && matches[p].members <= matches[p].observed <= table.Keys
  }

  /** The candidate continues an earlier one whose baseline is still quiet. */
  ghost predicate Continues(before: Option<Candidate>, m: Match, sign: Signature, now: real, grace: real) {
    && before.Some? && before.value.owner == m.owner && before.value.kind == m.kind
    && IsQuiet(before.value.signature, sign)
    && 0.0 <= now - before.value.last <= grace + 60.0
  }

  /** The baseline and start of a continued candidate are kept; only the last sighting moves. */
  ghost function Next(before: Option<Candidate>, m: Match, sign: Signature, now: real, grace: real): Candidate {
    if Continues(before, m, sign, now, grace)
    then Candidate(m.owner, m.kind, m.members, before.value.signature, before.value.first, now)
    else Candidate(m.owner, m.kind, m.members, sign, now, now)
  }

  ghost function Rescan(candidates: map<Pid, Candidate>, table: Table, cpu: map<Pid, real>, matches: map<Pid, Match>,
                        now: real, grace: real): map<Pid, Candidate> {
    map p | p in matches ::
      Next(Lookup(candidates, p), matches[p], SignatureOf(matches[p].observed, table, cpu), now, grace)
  }

  /** Candidates past the grace period. */
  function Ready(candidates: map<Pid, Candidate>, now: real, grace: real): set<Pid> {
    set p | p in candidates && now - candidates[p].first >= grace
  }

  lemma AddOne(goal: map<Pid, Candidate>, rest: set<Pid>, p: Pid)
    requires p in rest && p in goal
    ensures (goal - rest)[p := goal[p]] == goal - (rest - {p})
  {
  }

  lemma ReadyOne(followed: map<Pid, Candidate>, p: Pid, c: Candidate, now: real, grace: real)
    requires p !in followed
    ensures Ready(followed[p := c], now, grace)
      == Ready(followed, now, grace) + if now - c.first >= grace then {p} else {}
  {
  }

  class Collector {
    const grace: real
    var sessions: map<(Pid, Token), Session>
    var candidates: map<Pid, Candidate>

    constructor (grace: real)
      requires 300.0 <= grace <= 86400.0
      ensures this.grace == grace && sessions == map[] && candidates == map[]
    {
      this.grace := grace;
      sessions, candidates := map[], map[];
    }

    static method Advance(before: Option<Session>, e: Payload, agent: Pid, start: Start, now: real) returns (s: Session)
      ensures s == SessionAfter(before, e, agent, start, now)
    {
      var children: set<Token> := {};
      if before.Some? && before.value.start == start {
        children := before.value.children;
      }
      if e.hook == SubagentStart {
        children := children + {e.child.GetOr(UNKNOWN_CHILD)};
      } else if e.hook == SubagentStop && e.child.Some? {
        children := children - {e.child.value};
      }
      var ended := e.hook == Stop || e.hook == SessionEnd
          || (e.hook == SubagentStop && before.Some? && before.value.ended);
      var idle := ended && children == {};
      if !e.tasksDisposable {
        idle := false;
      }
      if e.child.Some? && e.hook == Stop {
        idle := false;
      }
      s := Session(agent, start, idle, children, now, ended, e.cwd);
    }

    /** A lifecycle event of an agent's session: record its phase and end every grace
        period of that agent. Too many live sessions leave the stored state as it was. */
    method Event(e: Payload, agent: Pid, table: Table, now: real) returns (saved: bool)
      requires agent in table
      modifies this
      ensures saved <==> |SessionsAfter(old(sessions), e, agent, table, now)| <= 512
      ensures !saved ==> sessions == old(sessions) && candidates == old(candidates)
      ensures saved ==> sessions == SessionsAfter(old(sessions), e, agent, table, now)
      ensures saved ==> candidates == Undisturbed(old(candidates), agent)
    {
      var live := LiveSessions(sessions, table);
      var next := Advance(Lookup(live, (agent, e.session)), e, agent, table[agent].start, now);
      live := live[(agent, e.session) := next];
      if |live| > MAX_SESSIONS {
        return false;
      }
      sessions := live;
      candidates := Undisturbed(candidates, agent);
      saved := true;
    }

    /** Follow every match, in any order, and list the candidates past the grace period. */
    method FollowAll(before: map<Pid, Candidate>, table: Table, cpu: map<Pid, real>, matches: map<Pid, Match>,
                     now: real)
      returns (followed: map<Pid, Candidate>, ready: set<Pid>)
      ensures followed == Rescan(before, table, cpu, matches, now, grace)
      ensures ready == Ready(followed, now, grace)
    {
      ghost var goal := Rescan(before, table, cpu, matches, now, grace);
      var rest := matches.Keys;
      followed, ready := map[], {};
      while rest != {}
        invariant rest <= matches.Keys
        invariant followed == goal - rest
        invariant ready == Ready(followed, now, grace)
        decreases |rest|
      {
        var p := Take(rest);
        var c := Follow(Lookup(before, p), matches[p], SignatureOf(matches[p].observed, table, cpu), now);
        assert c == goal[p];
        AddOne(goal, rest, p);
        ReadyOne(followed, p, c, now, grace);
        if now - c.first >= grace {
          ready := ready + {p};
        }
        followed := followed[p := c];
        rest := rest - {p};
      }
    }

    /** One scan: every match is continued or begun, everything else is forgotten. */
    method Scan(table: Table, cpu: map<Pid, real>, matches: map<Pid, Match>, pending: bool, now: real)
      returns (ready: set<Pid>)
      modifies this
      ensures pending ==> candidates == old(candidates) && sessions == old(sessions) && ready == {}
      ensures !pending ==> candidates == Rescan(old(candidates), table, cpu, matches, now, grace)
      ensures !pending ==> sessions == LiveSessions(old(sessions), table)
      ensures !pending ==> ready == Ready(candidates, now, grace)
    {
      if pending {
        return {};
      }
      var followed;
      followed, ready := FollowAll(candidates, table, cpu, matches, now);
      candidates := followed;
      sessions := LiveSessions(sessions, table);
    }

    method Follow(before: Option<Candidate>, m: Match, sign: Signature, now: real) returns (c: Candidate)
      ensures c == Next(before, m, sign, now, grace)
    {
      var same := false;
      if before.Some? && before.value.owner == m.owner && before.value.kind == m.kind
          && 0.0 <= now - before.value.last <= grace + 60.0 {
        same := Quiet(before.value.signature, sign);
      }
      c := Candidate(m.owner, m.kind, m.members, if same then before.value.signature else sign,
                     if same then before.value.first else now, now);
    }

    /** May this process be stopped now? Some recent candidate past its grace period must
        still be disposable and quiet against its baseline. */
    method Authorize(pid: Pid, table: Table, cpu: map<Pid, real>, matches: map<Pid, Match>, pending: bool, now: real)
      returns (may: bool)
      ensures may <==> !pending && exists root :: Licensed(candidates, root, pid, table, cpu, matches, now, grace)
    {
      if pending {
        return false;
      }
      var rest := candidates.Keys;
      while rest != {}
        invariant rest <= candidates.Keys
        invariant forall root :: root in candidates && root !in rest ==>
          !Licensed(candidates, root, pid, table, cpu, matches, now, grace)
        decreases |rest|
      {
        var root := Take(rest);
        var c := candidates[root];
        if pid in c.members && root in table && 0.0 <= now - c.last <= 30.0 && now - c.first >= grace
            && root in matches {
          var quiet := Quiet(c.signature, SignatureOf(matches[root].observed, table, cpu));
          if quiet {
            assert Licensed(candidates, root, pid, table, cpu, matches, now, grace);
            return true;
          }
        }
        rest := rest - {root};
      }
      may := false;
    }
  }

  /** What one candidate contributes to an authorisation. */
  ghost predicate Licensed(candidates: map<Pid, Candidate>, root: Pid, pid: Pid, table: Table, cpu: map<Pid, real>,
                           matches: map<Pid, Match>, now: real, grace: real)
  {
    && root in candidates && pid in candidates[root].members && root in table && root in matches
    && 0.0 <= now - candidates[root].last <= 30.0 && now - candidates[root].first >= grace
    && IsQuiet(candidates[root].signature, SignatureOf(matches[root].observed, table, cpu))
  }

  // ---------------------------------------------------------------- histories

  /** What happens to the candidates: completed scans, and lifecycle events of an agent. */
  datatype Change =
    | Scanned(table: Table, cpu: map<Pid, real>, matches: map<Pid, Match>, now: real)
    | Lifecycle(agent: Pid)

  ghost function CandidatesAfter(grace: real, changes: seq<Change>): map<Pid, Candidate> {
    if changes == [] then map[] else
    var before := CandidatesAfter(grace, changes[..|changes| - 1]);
    match changes[|changes| - 1]
    case Lifecycle(agent) => Undisturbed(before, agent)
    case Scanned(table, cpu, matches, now) => Rescan(before, table, cpu, matches, now, grace)
  }

  /** Times of the completed scans in a stretch of history. */
  function ScanTimes(changes: seq<Change>): seq<real> {
    if changes == [] then [] else
    var e := changes[|changes| - 1];
    ScanTimes(changes[..|changes| - 1]) + (if e.Scanned? then [e.now] else [])
  }

  predicate GapsWithin(times: seq<real>, limit: real) {
    forall k :: 0 < k < |times| ==> 0.0 <= times[k] - times[k - 1] <= limit
  }

  /** The scan saw the candidate's root disposable, for the same owner and kind, with the
      same processes as at the baseline and no more than two seconds of CPU since. */
  ghost predicate SeesQuiet(e: Change, root: Pid, c: Candidate) {
    e.Scanned? ==>
      && root in e.matches && e.matches[root].owner == c.owner && e.matches[root].kind == c.kind
      && IsQuiet(c.signature, SignatureOf(e.matches[root].observed, e.table, e.cpu))
  }

  predicate Disturbs(e: Change, c: Candidate) { e.Lifecycle? && c.owner == Some(e.agent) }

  /** From change i on every scan saw the candidate quiet and its owner's sessions did
      nothing; scan i set its baseline and start, the last scan its members. */
  ghost predicate Witnessed(grace: real, changes: seq<Change>, root: Pid, c: Candidate, i: nat) {
    && i < |changes| && changes[i].Scanned? && root in changes[i].matches
    && c.first == changes[i].now
    && c.signature == SignatureOf(changes[i].matches[root].observed, changes[i].table, changes[i].cpu)
    && (forall k :: i <= k < |changes| ==> SeesQuiet(changes[k], root, c) && !Disturbs(changes[k], c))
    && var times := ScanTimes(changes[i..]);
    && times != [] && c.last == times[|times| - 1] && GapsWithin(times, grace + 60.0)
    && c.members <= c.signature.Keys
  }

  ghost predicate SensibleHistory(changes: seq<Change>) {
    forall k :: 0 <= k < |changes| && changes[k].Scanned? ==> Sensible(changes[k].matches, changes[k].table)
  }

  lemma SignatureIsQuiet(sign: Signature)
    ensures IsQuiet(sign, sign)
  {
    NoGrowth(sign.Keys, sign);
  }

  lemma {:induction false} NoGrowth(pids: set<Pid>, sign: Signature)
    requires pids <= sign.Keys
    ensures Growth(pids, sign, sign) == 0.0
    decreases |pids|
  {
    if pids != {} {
      NoGrowth(pids - {Pick(pids)}, sign);
    }
  }

  lemma TimesExtend(changes: seq<Change>, i: nat)
    requires i < |changes|
    ensures var e := changes[|changes| - 1];
      ScanTimes(changes[i..]) == ScanTimes(changes[..|changes| - 1][i..]) + (if e.Scanned? then [e.now] else [])
  {
    var tail := changes[i..];
    assert tail[..|tail| - 1] == changes[..|changes| - 1][i..];
  }

  lemma WitnessKept(grace: real, changes: seq<Change>, root: Pid, c: Candidate, i: nat)
    requires changes != [] && Witnessed(grace, changes[..|changes| - 1], root, c, i)
    requires changes[|changes| - 1].Lifecycle? && !Disturbs(changes[|changes| - 1], c)
    ensures Witnessed(grace, changes, root, c, i)
  {
    TimesExtend(changes, i);
    assert forall k :: i <= k < |changes| - 1 ==> changes[..|changes| - 1][k] == changes[k];
  }

  lemma WitnessContinues(grace: real, changes: seq<Change>, root: Pid, c: Candidate, i: nat)
    requires changes != [] && Witnessed(grace, changes[..|changes| - 1], root, c, i) && SensibleHistory(changes)
    requires var e := changes[|changes| - 1];
      && e.Scanned? && root in e.matches
      && Continues(Some(c), e.matches[root], SignatureOf(e.matches[root].observed, e.table, e.cpu), e.now, grace)
    ensures var e := changes[|changes| - 1];
      Witnessed(grace, changes, root, c.(members := e.matches[root].members, last := e.now), i)
  {
    var n := |changes| - 1;
    var e := changes[n];
    var next := c.(members := e.matches[root].members, last := e.now);
    TimesExtend(changes, i);
    assert forall k :: i <= k < n ==> changes[..n][k] == changes[k];
    assert forall k :: i <= k < n ==> SeesQuiet(changes[k], root, c) ==> SeesQuiet(changes[k], root, next);
    assert SignatureOf(e.matches[root].observed, e.table, e.cpu).Keys == e.matches[root].observed;
  }

  lemma WitnessBegins(grace: real, changes: seq<Change>, root: Pid)
    requires changes != [] && SensibleHistory(changes)
    requires var e := changes[|changes| - 1]; e.Scanned? && root in e.matches
    ensures var e := changes[|changes| - 1];
      var m := e.matches[root];
      Witnessed(grace, changes, root,
                Candidate(m.owner, m.kind, m.members, SignatureOf(m.observed, e.table, e.cpu), e.now, e.now),
                |changes| - 1)
  {
    var n := |changes| - 1;
    var e := changes[n];
    var sign := SignatureOf(e.matches[root].observed, e.table, e.cpu);
    SignatureIsQuiet(sign);
    assert changes[n..] == [e] && [e][..0] == [] && ScanTimes([]) == [];
    assert ScanTimes(changes[n..]) == [e.now];
    assert sign.Keys == e.matches[root].observed;
  }

  /** Every candidate on record is witnessed back to its baseline. */
  lemma {:induction false} CandidateIsWitnessed(grace: real, changes: seq<Change>, root: Pid) returns (i: nat)
    requires SensibleHistory(changes) && root in CandidatesAfter(grace, changes)
    ensures Witnessed(grace, changes, root, CandidatesAfter(grace, changes)[root], i)
  {
    var n := |changes| - 1;
    var e := changes[n];
    var front := changes[..n];
    var before := CandidatesAfter(grace, front);
    assert SensibleHistory(front);
    if e.Lifecycle? {
      i := CandidateIsWitnessed(grace, front, root);
      WitnessKept(grace, changes, root, before[root], i);
    } else {
      var sign := SignatureOf(e.matches[root].observed, e.table, e.cpu);
      if Continues(Lookup(before, root), e.matches[root], sign, e.now, grace) {
        i := CandidateIsWitnessed(grace, front, root);
        WitnessContinues(grace, changes, root, before[root], i);
      } else {
        WitnessBegins(grace, changes, root);
        i := n;
      }
    }
  }

  /** Idle authorisation. If a process may be stopped, then some root process was seen
      disposable at a scan at least the grace period ago and at every scan since, with no
      two scans further apart than the grace period and a minute and no lifecycle event of
      its owner; the same processes were observed each time and now; together they have
      used at most two seconds of CPU since that first scan; and the process is still the
      one that was observed then. */
  lemma IdleOnlyAfterGrace(grace: real, changes: seq<Change>, root: Pid, pid: Pid, table: Table, cpu: map<Pid, real>,
                           matches: map<Pid, Match>, now: real) returns (i: nat)
    requires SensibleHistory(changes) && Sensible(matches, table)
    requires Licensed(CandidatesAfter(grace, changes), root, pid, table, cpu, matches, now, grace)
    ensures var c := CandidatesAfter(grace, changes)[root];
            var sign := SignatureOf(matches[root].observed, table, cpu);
      && Witnessed(grace, changes, root, c, i)
      && now - changes[i].now >= grace && 0.0 <= now - c.last <= 30.0
      && SameProcesses(c.signature, sign) && Growth(c.signature.Keys, c.signature, sign) <= 2.0
      && pid in c.signature && pid in table
      && table[pid].start == c.signature[pid].start && table[pid].command == c.signature[pid].command
  {
    i := CandidateIsWitnessed(grace, changes, root);
  }
}
