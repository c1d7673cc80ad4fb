/** Which processes a job owns: the attribution closure of libexec/job_observation.py
    and the descendant search of libexec/idle_gc.py. */
module Ownership {
  import opened Common

  datatype Row = Row(ppid: Pid, group: Pid, uid: int, start: Start, command: Token)

  type Table = map<Pid, Row>

  /** What attribution reads from a job record. */
  datatype Scope = Scope(footprint: map<Pid, Start>, group: Pid, supervisor: Pid, exclusions: map<Pid, Start>)

  /** Rows that are not registered to another job. */
  function Visible(s: Scope, table: Table): Table {
    map p | p in table && Lookup(s.exclusions, p) != Some(table[p].start) :: table[p]
  }

  /** Remembered members that are still the same live processes. */
  function Anchors(s: Scope, rows: Table, uid: int): set<Pid> {
    set p | p in s.footprint && p in rows && rows[p].start == s.footprint[p] && rows[p].uid == uid
  }

  function Grouped(s: Scope, rows: Table, uid: int): set<Pid> {
    set p | p in rows && rows[p].uid == uid && rows[p].group == s.group && p != s.supervisor
  }

  /** A child that ownership extends to. */
  predicate Inherits(s: Scope, rows: Table, uid: int, owned: set<Pid>, p: Pid) {
    p in rows && rows[p].uid == uid && rows[p].ppid in owned && p != s.supervisor
  }

  predicate Closed(s: Scope, rows: Table, uid: int, owned: set<Pid>) {
    forall p :: p in rows && Inherits(s, rows, uid, owned, p) ==> p in owned
  }

  function Children(s: Scope, rows: Table, uid: int, owned: set<Pid>): set<Pid> {
    set p | p in rows && Inherits(s, rows, uid, owned, p)
  }

  /** The closure of a set under inheritance, one generation at a time. */
  function Closure(s: Scope, rows: Table, uid: int, owned: set<Pid>): set<Pid>
    decreases |rows.Keys - owned|
  {
    var next := owned + Children(s, rows, uid, owned);
    if next == owned then owned
    else
      assert rows.Keys - next < rows.Keys - owned;
      Smaller(rows.Keys - next, rows.Keys - owned);
      Closure(s, rows, uid, next)
  }

  lemma Smaller(a: set<Pid>, b: set<Pid>)
    requires a < b
    ensures |a| < |b|
  {
    assert b == a + (b - a);
    assert |b - a| > 0;
  }

  /** The closure is the least closed superset, which makes it independent of any order. */
  lemma {:induction false} ClosureIsLeast(s: Scope, rows: Table, uid: int, owned: set<Pid>)
    ensures owned <= Closure(s, rows, uid, owned)
    ensures Closed(s, rows, uid, Closure(s, rows, uid, owned))
    ensures forall c: set<Pid> :: owned <= c && Closed(s, rows, uid, c) ==> Closure(s, rows, uid, owned) <= c
    decreases |rows.Keys - owned|
  {
    var next := owned + Children(s, rows, uid, owned);
    if next != owned {
      assert rows.Keys - next < rows.Keys - owned;
      Smaller(rows.Keys - next, rows.Keys - owned);
      ClosureIsLeast(s, rows, uid, next);
      forall c: set<Pid> | owned <= c && Closed(s, rows, uid, c) ensures next <= c {
        forall p | p in Children(s, rows, uid, owned) ensures p in c {
          assert Inherits(s, rows, uid, c, p);
        }
      }
    } else {
      forall p | p in rows && Inherits(s, rows, uid, owned, p) ensures p in owned {
        assert p in Children(s, rows, uid, owned);
      }
    }
  }

  /** The processes attributed to a job; none at all once every remembered member is gone. */
  function Owned(s: Scope, table: Table, uid: int): set<Pid> {
    var rows := Visible(s, table);
    var anchors := Anchors(s, rows, uid);
    if anchors == {} then {} else Closure(s, rows, uid, anchors + Grouped(s, rows, uid))
  }

  function Starts(rows: Table, pids: set<Pid>): map<Pid, Start> {
    map p | p in pids && p in rows :: rows[p].start
  }

  lemma OwnedIsVisible(s: Scope, table: Table, uid: int)
    ensures Owned(s, table, uid) <= Visible(s, table).Keys
    ensures forall p :: p in Owned(s, table, uid) ==> Visible(s, table)[p].uid == uid
  {
    var rows := Visible(s, table);
    var anchors := Anchors(s, rows, uid);
    var mine := set p | p in rows && rows[p].uid == uid;
    ClosureIsLeast(s, rows, uid, anchors + Grouped(s, rows, uid));
    assert Closed(s, rows, uid, mine);
    assert anchors + Grouped(s, rows, uid) <= mine;
  }

  /** One pass over the table, in whatever order it is iterated. */
  method Sweep(s: Scope, rows: Table, uid: int, owned: set<Pid>) returns (grown: set<Pid>, changed: bool)
    ensures owned <= grown && changed == (grown != owned) && grown <= owned + rows.Keys
    ensures grown <= Closure(s, rows, uid, owned)
    ensures !changed ==> Closed(s, rows, uid, owned)
  {
    ClosureIsLeast(s, rows, uid, owned);
    grown, changed := owned, false;
    var rest := rows.Keys;
    while rest != {}
      invariant rest <= rows.Keys
      invariant owned <= grown <= Closure(s, rows, uid, owned) && grown <= owned + rows.Keys
      invariant changed == (grown != owned)
      invariant !changed ==> forall p :: p in rows && p !in rest && Inherits(s, rows, uid, owned, p) ==> p in owned
      decreases |rest|
    {
      var p := Take(rest);
      if p !in grown && Inherits(s, rows, uid, grown, p) {
        assert Inherits(s, rows, uid, Closure(s, rows, uid, owned), p);
        grown := grown + {p};
        changed := true;
      }
      rest := rest - {p};
    }
  }

  lemma ClosureOfBetween(s: Scope, rows: Table, uid: int, base: set<Pid>, mid: set<Pid>)
    requires base <= mid <= Closure(s, rows, uid, base)
    ensures Closure(s, rows, uid, mid) == Closure(s, rows, uid, base)
  {
    ClosureIsLeast(s, rows, uid, base);
    ClosureIsLeast(s, rows, uid, mid);
  }

  lemma ClosedMeansDone(s: Scope, rows: Table, uid: int, base: set<Pid>, pids: set<Pid>)
    requires base <= pids <= Closure(s, rows, uid, base) && Closed(s, rows, uid, pids)
    ensures pids == Closure(s, rows, uid, base)
  {
    ClosureIsLeast(s, rows, uid, base);
  }

  /** Repeated passes, adding children as they are met, until one adds nothing. */
  method Grow(s: Scope, rows: Table, uid: int, base: set<Pid>) returns (pids: set<Pid>)
    ensures pids == Closure(s, rows, uid, base)
  {
    pids := base;
    var changed := true;
    ClosureIsLeast(s, rows, uid, base);
    while changed
      invariant base <= pids <= Closure(s, rows, uid, base)
      invariant !changed ==> Closed(s, rows, uid, pids)
      decreases |rows.Keys - pids|, changed
    {
      ClosureOfBetween(s, rows, uid, base, pids);
      var grown, more := Sweep(s, rows, uid, pids);
      if more {
        assert rows.Keys - grown < rows.Keys - pids;
        Smaller(rows.Keys - grown, rows.Keys - pids);
      }
      pids, changed := grown, more;
    }
    ClosedMeansDone(s, rows, uid, base, pids);
  }

  /** Ownership closure: the least closed set over the anchors and the job's group, whatever
      order each pass takes, and nothing at all when no anchor is left. */
  method Members(s: Scope, table: Table, uid: int) returns (owned: map<Pid, Start>)
    ensures owned == Starts(table, Owned(s, table, uid)) && owned.Keys == Owned(s, table, uid)
  {
    OwnedIsVisible(s, table, uid);
    var rows := Visible(s, table);
    var anchors := Anchors(s, rows, uid);
    if anchors == {} {
      return map[];
    }
    var pids := Grow(s, rows, uid, anchors + Grouped(s, rows, uid));
    owned := Starts(table, pids);
  }

  // -------------------------------------------------------------- descendants

  const DEPTH: nat := 64

  /** Processes whose parent is among `found`. */
  function Wave(found: set<Pid>, table: Table): set<Pid> {
    set p | p in table && table[p].ppid in found
  }

  /** Processes at most n parent links below pid. */
  function Within(pid: Pid, table: Table, n: nat): set<Pid> {
    if n == 0 then {pid} else Within(pid, table, n - 1) + Wave(Within(pid, table, n - 1), table)
  }

  /** A chain of parent links from the first process down to the last. */
  predicate Path(path: seq<Pid>, table: Table) {
    path != [] && forall k :: 0 < k < |path| ==> path[k] in table && table[path[k]].ppid == path[k - 1]
  }

  ghost predicate DescendsIn(pid: Pid, q: Pid, table: Table, links: nat) {
    exists path :: Path(path, table) && path[0] == pid && path[|path| - 1] == q && |path| == links + 1
  }

  ghost predicate Descends(pid: Pid, q: Pid, table: Table) {
    exists links: nat :: DescendsIn(pid, q, table, links)
  }

  lemma {:induction false} WithinGrows(pid: Pid, table: Table, m: nat, n: nat)
    requires m <= n
    ensures Within(pid, table, m) <= Within(pid, table, n)
    decreases n - m
  {
    if m < n {
      WithinGrows(pid, table, m, n - 1);
    }
  }

  lemma {:induction false} PathIsWithin(pid: Pid, q: Pid, table: Table, links: nat)
    requires DescendsIn(pid, q, table, links)
    ensures q in Within(pid, table, links)
    decreases links
  {
    var path :| Path(path, table) && path[0] == pid && path[|path| - 1] == q && |path| == links + 1;
    if links > 0 {
      var front := path[..links];
      assert Path(front, table) && front[|front| - 1] == path[links - 1];
      PathIsWithin(pid, path[links - 1], table, links - 1);
    }
  }

  lemma {:induction false} WithinIsPath(pid: Pid, q: Pid, table: Table, n: nat) returns (links: nat)
    requires q in Within(pid, table, n)
    ensures links <= n && DescendsIn(pid, q, table, links)
    decreases n
  {
    if n == 0 {
      links := 0;
      assert Path([pid], table);
    } else if q in Within(pid, table, n - 1) {
      links := WithinIsPath(pid, q, table, n - 1);
    } else {
      var up := WithinIsPath(pid, table[q].ppid, table, n - 1);
      var path :| Path(path, table) && path[0] == pid && path[|path| - 1] == table[q].ppid && |path| == up + 1;
      links := up + 1;
      assert Path(path + [q], table);
    }
  }

  lemma {:induction false} ClosedWavesStop(pid: Pid, table: Table, n: nat, m: nat)
    requires n <= m && Wave(Within(pid, table, n), table) <= Within(pid, table, n)
    ensures Within(pid, table, m) == Within(pid, table, n)
    decreases m - n
  {
    if n < m {
      ClosedWavesStop(pid, table, n, m - 1);
    }
  }

  /** A descendant that every chain of links takes 64 or more to reach. */
  ghost predicate FarOnly(pid: Pid, q: Pid, table: Table) {
    Descends(pid, q, table) && forall links: nat :: links < DEPTH ==> !DescendsIn(pid, q, table, links)
  }

  /** The search answers with exactly the processes reachable through parent links, and it
      refuses exactly when one of them is 64 or more links away. */
  method Descendants(pid: Pid, table: Table) returns (found: Option<set<Pid>>)
    ensures found.Some? ==> forall q :: q in found.value <==> Descends(pid, q, table)
    ensures found.None? <==> exists q :: FarOnly(pid, q, table)
    ensures found == DescendantsOf(pid, table)
  {
    var reached := {pid};
    for k := 0 to DEPTH
      invariant reached == Within(pid, table, k)
      invariant forall n: nat :: n < k ==> !(Wave(Within(pid, table, n), table) <= Within(pid, table, n))
    {
      var more := Wave(reached, table);
      if more <= reached {
        StoppedSearch(pid, table, k);
        return Some(reached);
      }
      reached := reached + more;
    }
    found := None;
    DeepSearch(pid, table);
  }

  /** The answer as a value. */
  function DescendantsOf(pid: Pid, table: Table): Option<set<Pid>> {
    var all := Within(pid, table, DEPTH - 1);
    if Wave(all, table) <= all then Some(all) else None
  }

  lemma StoppedSearch(pid: Pid, table: Table, k: nat)
    requires k < DEPTH && Wave(Within(pid, table, k), table) <= Within(pid, table, k)
    ensures forall q :: q in Within(pid, table, k) <==> Descends(pid, q, table)
    ensures forall q :: Descends(pid, q, table) ==>
      exists links: nat :: links < DEPTH && DescendsIn(pid, q, table, links)
    ensures DescendantsOf(pid, table) == Some(Within(pid, table, k))
  {
    forall q | Descends(pid, q, table) ensures q in Within(pid, table, k) {
      var links: nat :| DescendsIn(pid, q, table, links);
      PathIsWithin(pid, q, table, links);
      var m := Max(links, k);
      WithinGrows(pid, table, links, m);
      ClosedWavesStop(pid, table, k, m);
    }
    forall q | q in Within(pid, table, k)
      ensures exists links: nat :: links < DEPTH && DescendsIn(pid, q, table, links)
      ensures Descends(pid, q, table)
    {
      var links := WithinIsPath(pid, q, table, k);
    }
    ClosedWavesStop(pid, table, k, DEPTH - 1);
  }

  lemma DeepSearch(pid: Pid, table: Table)
    requires var last := Within(pid, table, DEPTH - 1); !(Wave(last, table) <= last)
    ensures exists q :: FarOnly(pid, q, table)
  {
    var last := Within(pid, table, DEPTH - 1);
    assert forall p :: p in Wave(last, table) ==> p in last || p in Wave(last, table) - last;
    var q := Pick(Wave(last, table) - last);
    assert q in Within(pid, table, DEPTH);
    var far := WithinIsPath(pid, q, table, DEPTH);
    assert Descends(pid, q, table);
    forall links: nat | links < DEPTH ensures !DescendsIn(pid, q, table, links) {
      if DescendsIn(pid, q, table, links) {
        PathIsWithin(pid, q, table, links);
        WithinGrows(pid, table, links, DEPTH - 1);
      }
    }
    assert FarOnly(pid, q, table);
  }
}
