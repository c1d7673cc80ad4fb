/** Who is admitted next: the shared rotation over waiting jobs
    (Scheduler.next_waiter and record_turn in libexec/scheduler.py). */
module Selection {
  import opened Common
  import opened Jobs
  import opened Passes
  import Admission

  const SMALL_BURST: int := 3

  type Turns = map<Bucket, nat>

  function TurnOf(turns: Turns, job: Job): nat {
    var b := BucketOf(job);
    if b in turns then turns[b] else 0
  }

  /** Running finite jobs of a session, subagents included. */
  function Active(jobs: seq<Job>, b: Bucket): nat {
    if jobs == [] then 0
    else
      var j := jobs[|jobs| - 1];
      Active(jobs[..|jobs| - 1], b) + (if j.RunningFinite() && BucketOf(j) == b then 1 else 0)
  }

  // ------------------------------------------------------------- stable sorting

  /** Insertion after every element that may precede x, as a stable sort places it. */
  function Insert(sorted: seq<Job>, x: Job, le: (Job, Job) -> bool): (r: seq<Job>)
    ensures multiset(r) == multiset(sorted) + multiset{x}
  {
    if sorted == [] then [x]
    else
      var n := |sorted| - 1;
      assert sorted == sorted[..n] + [sorted[n]];
      if le(sorted[n], x) then sorted + [x] else Insert(sorted[..n], x, le) + [sorted[n]]
  }

  function SortBy(jobs: seq<Job>, le: (Job, Job) -> bool): (r: seq<Job>)
    ensures multiset(r) == multiset(jobs)
  {
    if jobs == [] then []
    else
      var n := |jobs| - 1;
      assert jobs == jobs[..n] + [jobs[n]];
      Insert(SortBy(jobs[..n], le), jobs[n], le)
  }

  predicate Pairwise(jobs: seq<Job>, r: (Job, Job) -> bool) {
    forall i, j :: 0 <= i < j < |jobs| ==> r(jobs[i], jobs[j])
  }

  ghost predicate TotalPreorder(le: (Job, Job) -> bool) {
    && (forall a, b :: le(a, b) || le(b, a))
    && (forall a, b, c :: le(a, b) && le(b, c) ==> le(a, c))
  }

  /** First by le, and among equals by r. */
  function Lexicographic(le: (Job, Job) -> bool, r: (Job, Job) -> bool): (Job, Job) -> bool {
    (a, b) => le(a, b) && (le(b, a) ==> r(a, b))
  }

  predicate AllPrecede(front: seq<Job>, x: Job, r: (Job, Job) -> bool) {
    forall i :: 0 <= i < |front| ==> r(front[i], x)
  }

  lemma PairwiseMore(front: seq<Job>, x: Job, r: (Job, Job) -> bool)
    requires Pairwise(front, r) && AllPrecede(front, x, r)
    ensures Pairwise(front + [x], r)
  {
  }

  lemma InsertedFrom(sorted: seq<Job>, x: Job, le: (Job, Job) -> bool, i: nat)
    requires i < |Insert(sorted, x, le)|
    ensures Insert(sorted, x, le)[i] == x || Insert(sorted, x, le)[i] in sorted
  {
    var y := Insert(sorted, x, le)[i];
    assert y in multiset(Insert(sorted, x, le));
    assert y != x ==> y in multiset(sorted);
  }

  lemma AfterLast(sorted: seq<Job>, x: Job, le: (Job, Job) -> bool, r: (Job, Job) -> bool)
    requires TotalPreorder(le) && sorted != [] && le(sorted[|sorted| - 1], x)
    requires Pairwise(sorted, Lexicographic(le, r)) && forall y :: y in sorted ==> r(y, x)
    ensures AllPrecede(sorted, x, Lexicographic(le, r))
  {
    var n := |sorted| - 1;
    forall i | 0 <= i < |sorted| ensures Lexicographic(le, r)(sorted[i], x) {
      assert i < n ==> Lexicographic(le, r)(sorted[i], sorted[n]);
      assert sorted[i] in sorted;
    }
  }

  lemma BeforeLast(sorted: seq<Job>, x: Job, le: (Job, Job) -> bool, r: (Job, Job) -> bool)
    requires TotalPreorder(le) && sorted != [] && !le(sorted[|sorted| - 1], x) && Pairwise(sorted, Lexicographic(le, r))
    ensures AllPrecede(Insert(sorted[..|sorted| - 1], x, le), sorted[|sorted| - 1], Lexicographic(le, r))
  {
    var n := |sorted| - 1;
    var front := Insert(sorted[..n], x, le);
    forall i | 0 <= i < |front| ensures Lexicographic(le, r)(front[i], sorted[n]) {
      InsertedFrom(sorted[..n], x, le, i);
      if front[i] != x {
        var k :| 0 <= k < n && sorted[..n][k] == front[i];
        assert Lexicographic(le, r)(sorted[k], sorted[n]);
      }
    }
  }

  lemma {:induction false} InsertIsStable(sorted: seq<Job>, x: Job, le: (Job, Job) -> bool, r: (Job, Job) -> bool)
    requires TotalPreorder(le)
    requires Pairwise(sorted, Lexicographic(le, r))
    requires forall y :: y in sorted ==> r(y, x)
    ensures Pairwise(Insert(sorted, x, le), Lexicographic(le, r))
  {
    if sorted != [] {
      var n := |sorted| - 1;
      var last := sorted[n];
      if le(last, x) {
        AfterLast(sorted, x, le, r);
        PairwiseMore(sorted, x, Lexicographic(le, r));
      } else {
        InsertIsStable(sorted[..n], x, le, r);
        BeforeLast(sorted, x, le, r);
        PairwiseMore(Insert(sorted[..n], x, le), last, Lexicographic(le, r));
      }
    }
  }

  /** Sorting by le a list already ordered by r leaves r as the tie-breaker. */
  lemma {:induction false} SortIsStable(jobs: seq<Job>, le: (Job, Job) -> bool, r: (Job, Job) -> bool)
    requires TotalPreorder(le)
    requires Pairwise(jobs, r)
    ensures Pairwise(SortBy(jobs, le), Lexicographic(le, r))
  {
    if jobs != [] {
      var n := |jobs| - 1;
      SortIsStable(jobs[..n], le, r);
      var front := SortBy(jobs[..n], le);
      forall y | y in front ensures r(y, jobs[n]) {
        assert y in multiset(front);
        var k :| 0 <= k < n && jobs[..n][k] == y;
      }
      InsertIsStable(front, jobs[n], le, r);
    }
  }

  // -------------------------------------------------------------- the ordering

  /** Everything a selection depends on besides the jobs. */
  datatype View = View(turns: Turns, now: real, streak: int, strict: bool)

  function Enqueued(v: View, job: Job): real { job.enqueued.GetOr(v.now) }

  /** Rotation order: least recent turn first, then longest waiting. */
  function ByTurn(v: View): (Job, Job) -> bool {
    (a, b) => TurnOf(v.turns, a) < TurnOf(v.turns, b)
              || (TurnOf(v.turns, a) == TurnOf(v.turns, b) && Enqueued(v, a) <= Enqueued(v, b))
  }

  /** Fair order: fewest running finite jobs of the session, then its turn. */
  function ByShare(jobs: seq<Job>, v: View): (Job, Job) -> bool {
    (a, b) => Active(jobs, BucketOf(a)) < Active(jobs, BucketOf(b))
              || (Active(jobs, BucketOf(a)) == Active(jobs, BucketOf(b)) && TurnOf(v.turns, a) <= TurnOf(v.turns, b))
  }

  /** The lane that goes first after `streak` consecutive small admissions. */
  function PreferredLane(v: View): Lane { if v.streak >= SMALL_BURST then Heavy else Small }

  /** Lane order: the preferred lane first, rotation order within a lane. */
  function ByLane(v: View): (Job, Job) -> bool {
    (a, b) => if LaneOf(a) == LaneOf(b) then ByTurn(v)(a, b) else LaneOf(a) == PreferredLane(v)
  }

  function Waiters(jobs: seq<Job>): (w: seq<Job>)
    ensures forall j :: j in w <==> j in jobs && j.status == Waiting
  {
    if jobs == [] then [] else
    var n := |jobs| - 1;
    assert jobs == jobs[..n] + [jobs[n]];
    Waiters(jobs[..n]) + (if jobs[n].status == Waiting then [jobs[n]] else [])
  }

  function InLane(jobs: seq<Job>, lane: Lane): (w: seq<Job>)
    ensures forall j :: j in w <==> j in jobs && LaneOf(j) == lane
  {
    if jobs == [] then [] else
    var n := |jobs| - 1;
    assert jobs == jobs[..n] + [jobs[n]];
    InLane(jobs[..n], lane) + (if LaneOf(jobs[n]) == lane then [jobs[n]] else [])
  }

  predicate LanesKnown(jobs: seq<Job>) { forall j :: j in jobs ==> j.laneVersion == 1 }

  predicate Fair(jobs: seq<Job>) { forall j :: j in jobs ==> j.fairnessVersion == 2 }

  function Rotation(jobs: seq<Job>, v: View): seq<Job> { SortBy(Waiters(jobs), ByTurn(v)) }

  function LaneOrder(jobs: seq<Job>, v: View): seq<Job> {
    var waiting := Rotation(jobs, v);
    if !LanesKnown(waiting) then waiting
    else if PreferredLane(v) == Heavy then InLane(waiting, Heavy) + InLane(waiting, Small)
    else InLane(waiting, Small) + InLane(waiting, Heavy)
  }

  /** The order in which candidates are offered the capacity. */
  function Order(jobs: seq<Job>, v: View): seq<Job> {
    if Fair(Waiters(jobs)) then SortBy(LaneOrder(jobs, v), ByShare(jobs, v)) else LaneOrder(jobs, v)
  }

  function TieBreak(jobs: seq<Job>, v: View): (Job, Job) -> bool {
    if LanesKnown(Waiters(jobs)) then ByLane(v) else ByTurn(v)
  }

  /** The candidate order restated without sorting: fair share first where every waiter
      supports it, then lane, then turn and age. */
  function Precedes(jobs: seq<Job>, v: View): (Job, Job) -> bool {
    if Fair(Waiters(jobs)) then Lexicographic(ByShare(jobs, v), TieBreak(jobs, v)) else TieBreak(jobs, v)
  }

  lemma {:induction false} LanePartition(jobs: seq<Job>)
    ensures multiset(InLane(jobs, Heavy)) + multiset(InLane(jobs, Small)) == multiset(jobs)
  {
    if jobs != [] {
      var n := |jobs| - 1;
      assert jobs == jobs[..n] + [jobs[n]];
      LanePartition(jobs[..n]);
    }
  }

  lemma {:induction false} InLaneKeepsOrder(jobs: seq<Job>, lane: Lane, r: (Job, Job) -> bool)
    requires Pairwise(jobs, r)
    ensures Pairwise(InLane(jobs, lane), r)
  {
    if jobs != [] {
      var n := |jobs| - 1;
      InLaneKeepsOrder(jobs[..n], lane, r);
      forall y | y in InLane(jobs[..n], lane) ensures r(y, jobs[n]) {
        var k :| 0 <= k < n && jobs[..n][k] == y;
      }
    }
  }

  /** The rotation is a permutation of the waiters in turn-then-age order. */
  lemma RotationIsOrdered(jobs: seq<Job>, v: View)
    ensures multiset(Rotation(jobs, v)) == multiset(Waiters(jobs))
    ensures forall j :: j in Rotation(jobs, v) <==> j in Waiters(jobs)
    ensures Pairwise(Rotation(jobs, v), ByTurn(v))
  {
    var any := (a: Job, b: Job) => true;
    SortIsStable(Waiters(jobs), ByTurn(v), any);
    SameMembers(Rotation(jobs, v), Waiters(jobs));
    var r := Rotation(jobs, v);
    forall i, k | 0 <= i < k < |r| ensures ByTurn(v)(r[i], r[k]) {
      assert Lexicographic(ByTurn(v), any)(r[i], r[k]);
    }
  }

  lemma SameMembers(a: seq<Job>, b: seq<Job>)
    requires multiset(a) == multiset(b)
    ensures forall j :: j in a <==> j in b
  {
    forall j ensures j in a <==> j in b {
      assert (j in a <==> j in multiset(a)) && (j in b <==> j in multiset(b));
    }
  }

  lemma LanesInRow(first: seq<Job>, second: seq<Job>, v: View)
    requires Pairwise(first, ByTurn(v)) && Pairwise(second, ByTurn(v))
    requires (forall j :: j in first ==> LaneOf(j) == PreferredLane(v))
      && (forall j :: j in second ==> LaneOf(j) != PreferredLane(v))
    ensures Pairwise(first + second, ByLane(v))
  {
    var all := first + second;
    forall i, k | 0 <= i < k < |all| ensures ByLane(v)(all[i], all[k]) {
      assert i < |first| ==> all[i] in first;
      assert k < |first| ==> all[k] in first;
      assert i >= |first| ==> all[i] in second;
      assert k >= |first| ==> all[k] in second;
    }
  }

  lemma {:induction false} LaneOrderIsPermutation(jobs: seq<Job>, v: View)
    ensures multiset(LaneOrder(jobs, v)) == multiset(Waiters(jobs))
  {
    RotationIsOrdered(jobs, v);
    LanePartition(Rotation(jobs, v));
  }

  lemma LanesOrdered(waiting: seq<Job>, v: View)
    requires Pairwise(waiting, ByTurn(v))
    ensures var other := if PreferredLane(v) == Heavy then Small else Heavy;
      Pairwise(InLane(waiting, PreferredLane(v)) + InLane(waiting, other), ByLane(v))
  {
    InLaneKeepsOrder(waiting, Heavy, ByTurn(v));
    InLaneKeepsOrder(waiting, Small, ByTurn(v));
    var other := if PreferredLane(v) == Heavy then Small else Heavy;
    LanesInRow(InLane(waiting, PreferredLane(v)), InLane(waiting, other), v);
  }

  lemma LaneOrderIsOrdered(jobs: seq<Job>, v: View)
    ensures Pairwise(LaneOrder(jobs, v), TieBreak(jobs, v))
  {
    RotationIsOrdered(jobs, v);
    LanesOrdered(Rotation(jobs, v), v);
  }

  /** The candidates are exactly the waiters, each once, in precedence order. */
  lemma {:induction false} OrderIsPermutation(jobs: seq<Job>, v: View)
    ensures multiset(Order(jobs, v)) == multiset(Waiters(jobs))
    ensures Pairwise(Order(jobs, v), Precedes(jobs, v))
  {
    LaneOrderIsPermutation(jobs, v);
    LaneOrderIsOrdered(jobs, v);
    if Fair(Waiters(jobs)) {
      SortIsStable(LaneOrder(jobs, v), ByShare(jobs, v), TieBreak(jobs, v));
    }
  }

  // ------------------------------------------------------------- the selection

  /** A waiter is decided against the registry as the passes up to its own turn leave it. */
  ghost predicate Fits(jobs: seq<Job>, h: Host, v: View, job: Job) {
    exists k :: FitsAt(jobs, h, Rotation(jobs, v), k, job)
  }

  ghost predicate FitsAt(jobs: seq<Job>, h: Host, waiting: seq<Job>, k: int, job: Job) {
    0 <= k < |waiting| && waiting[k] == job && Allows(Passed(jobs, h, k + 1), h, job)
  }

  predicate DistinctIds(jobs: seq<Job>) {
    forall i, j :: 0 <= i < j < |jobs| ==> jobs[i].id != jobs[j].id
  }

  function Age(v: View, job: Job): real { v.now - Enqueued(v, job) }

  /** The first six of every thirty seconds; strict mode drains all the time. */
  predicate DrainWindow(v: View, age: real) {
    v.strict || age - 30.0 * ((age / 30.0).Floor as real) < 6.0
  }

  /** An aged heavy waiter that does not fit may hold back new admissions, but only while
      some finite job is running and so will free capacity. */
  ghost predicate Drains(jobs: seq<Job>, h: Host, v: View, job: Job) {
    && job in Waiters(jobs) && LaneOf(job) == Heavy
    && Age(v, job) >= 60.0 && DrainWindow(v, Age(v, job))
    && !Fits(jobs, h, v, job)
    && exists r :: r in jobs && r.RunningFinite()
  }

  /** The fitting waiter that no other fitting waiter strictly precedes. */
  ghost predicate Leads(jobs: seq<Job>, h: Host, v: View, job: Job) {
    && job in Waiters(jobs) && Fits(jobs, h, v, job)
    && forall w :: w in Waiters(jobs) && Fits(jobs, h, v, w) && w != job ==> Precedes(jobs, v)(job, w)
  }

  /** The ids recorded as fitting are those of the fitting waiters. */
  ghost predicate Records(fitting: set<Token>, waiting: seq<Job>, jobs: seq<Job>, h: Host, v: View) {
    forall w :: w in waiting ==> (w.id in fitting <==> Fits(jobs, h, v, w))
  }

  /** The first n waiters are decided. */
  ghost predicate Decided(fitting: set<Token>, jobs: seq<Job>, h: Host, waiting: seq<Job>, n: nat)
    requires n <= |waiting|
  {
    && (forall k :: 0 <= k < n ==> (waiting[k].id in fitting <==> Allows(Passed(jobs, h, k + 1), h, waiting[k])))
    && (forall t :: t in fitting ==> exists k :: 0 <= k < n && waiting[k].id == t)
  }

  lemma DecidedMore(fitting: set<Token>, jobs: seq<Job>, h: Host, waiting: seq<Job>, n: nat)
    requires n < |waiting| && Decided(fitting, jobs, h, waiting, n) && DistinctIds(waiting)
    ensures var more := if Allows(Passed(jobs, h, n + 1), h, waiting[n]) then fitting + {waiting[n].id} else fitting;
      Decided(more, jobs, h, waiting, n + 1)
  {
    var more := if Allows(Passed(jobs, h, n + 1), h, waiting[n]) then fitting + {waiting[n].id} else fitting;
    forall t | t in more ensures exists k :: 0 <= k < n + 1 && waiting[k].id == t {
      if t in fitting {
        var k :| 0 <= k < n && waiting[k].id == t;
      } else {
        assert waiting[n].id == t;
      }
    }
  }

  lemma DecidedRecords(fitting: set<Token>, jobs: seq<Job>, h: Host, v: View)
    requires var waiting := Rotation(jobs, v); Decided(fitting, jobs, h, waiting, |waiting|) && DistinctIds(waiting)
    ensures Records(fitting, Rotation(jobs, v), jobs, h, v)
  {
    var waiting := Rotation(jobs, v);
    forall w | w in waiting ensures w.id in fitting <==> Fits(jobs, h, v, w) {
      var k :| 0 <= k < |waiting| && waiting[k] == w;
      if Fits(jobs, h, v, w) {
        var i :| FitsAt(jobs, h, waiting, i, w);
      }
      if w.id in fitting {
        assert FitsAt(jobs, h, waiting, k, w);
      }
    }
  }

  /** One reservation pass and one decision per waiter, remembered by id. */
  method DecideAll(jobs: seq<Job>, h: Host, v: View) returns (fitting: set<Token>, after: seq<Job>)
    requires DistinctIds(Rotation(jobs, v))
    ensures Records(fitting, Rotation(jobs, v), jobs, h, v)
    ensures after == Passed(jobs, h, |Rotation(jobs, v)|)
  {
    fitting, after := {}, jobs;
    var waiting := Rotation(jobs, v);
    for i := 0 to |waiting|
      invariant after == Passed(jobs, h, i) && Decided(fitting, jobs, h, waiting, i)
    {
      DecidedMore(fitting, jobs, h, waiting, i);
      after := Pass(after, h, h.clocks(i));
      var d := Admission.Decide(h.policy, h.sample, h.controller, h.clock, after, RequestOf(waiting[i]));
      if d.allow {
        fitting := fitting + {waiting[i].id};
      }
    }
    DecidedRecords(fitting, jobs, h, v);
  }

  /** Of those that may hold back admissions the first in rotation order does. */
  ghost predicate LeadsDrain(jobs: seq<Job>, h: Host, v: View, job: Job) {
    Drains(jobs, h, v, job) && forall d :: Drains(jobs, h, v, d) && d != job ==> ByTurn(v)(job, d)
  }

  lemma DrainsFirst(jobs: seq<Job>, heavy: seq<Job>, h: Host, v: View, i: nat)
    requires forall w :: w in heavy <==> w in Waiters(jobs) && LaneOf(w) == Heavy
    requires Pairwise(heavy, ByTurn(v)) && i < |heavy| && Drains(jobs, h, v, heavy[i])
    requires forall k :: 0 <= k < i ==> !Drains(jobs, h, v, heavy[k])
    ensures LeadsDrain(jobs, h, v, heavy[i])
  {
    var earlier := ByTurn(v);
    forall d | Drains(jobs, h, v, d) && d != heavy[i] ensures earlier(heavy[i], d) {
      assert d in heavy;
      var k :| 0 <= k < |heavy| && heavy[k] == d;
      assert i < k;
    }
  }

  /** The first aged heavy waiter that may hold back admissions. */
  method FindDrain(jobs: seq<Job>, heavy: seq<Job>, h: Host, v: View, fitting: set<Token>) returns (chosen: Option<Job>)
    requires Records(fitting, heavy, jobs, h, v)
    requires forall w :: w in heavy <==> w in Waiters(jobs) && LaneOf(w) == Heavy
    requires Pairwise(heavy, ByTurn(v))
    ensures chosen.Some? ==> LeadsDrain(jobs, h, v, chosen.value)
    ensures chosen.None? ==> forall d :: !Drains(jobs, h, v, d)
  {
    var running := exists r :: r in jobs && r.RunningFinite();
    for i := 0 to |heavy|
      invariant forall k :: 0 <= k < i ==> !Drains(jobs, h, v, heavy[k])
    {
      var job := heavy[i];
      if Age(v, job) >= 60.0 && job.id !in fitting && DrainWindow(v, Age(v, job)) && running {
        DrainsFirst(jobs, heavy, h, v, i);
        return Some(job);
      }
    }
    chosen := None;
    forall d ensures !Drains(jobs, h, v, d) {
      if d in heavy {
        var k :| 0 <= k < |heavy| && heavy[k] == d;
      }
    }
  }

  lemma FirstLeads(jobs: seq<Job>, ordered: seq<Job>, h: Host, v: View, i: nat)
    requires Pairwise(ordered, Precedes(jobs, v)) && forall w :: w in ordered <==> w in Waiters(jobs)
    requires i < |ordered| && Fits(jobs, h, v, ordered[i])
    requires forall k :: 0 <= k < i ==> !Fits(jobs, h, v, ordered[k])
    ensures Leads(jobs, h, v, ordered[i])
  {
    var precedes := Precedes(jobs, v);
    forall w | w in ordered && Fits(jobs, h, v, w) && w != ordered[i] ensures precedes(ordered[i], w) {
      var k :| 0 <= k < |ordered| && ordered[k] == w;
      assert i < k;
    }
  }

  /** The first candidate that fits. */
  method FirstFitting(jobs: seq<Job>, ordered: seq<Job>, h: Host, v: View, fitting: set<Token>)
    returns (chosen: Option<Job>)
    requires Pairwise(ordered, Precedes(jobs, v)) && forall w :: w in ordered <==> w in Waiters(jobs)
    requires Records(fitting, ordered, jobs, h, v)
    ensures chosen == None <==> forall w :: w in Waiters(jobs) ==> !Fits(jobs, h, v, w)
    ensures chosen.Some? ==> Leads(jobs, h, v, chosen.value)
  {
    for i := 0 to |ordered|
      invariant forall k :: 0 <= k < i ==> !Fits(jobs, h, v, ordered[k])
    {
      var job := ordered[i];
      if job.id in fitting {
        FirstLeads(jobs, ordered, h, v, i);
        return Some(job);
      }
    }
    chosen := None;
    forall w | w in ordered ensures !Fits(jobs, h, v, w) {
      var k :| 0 <= k < |ordered| && ordered[k] == w;
    }
  }

  lemma {:induction false} InsertDistinct(sorted: seq<Job>, x: Job, le: (Job, Job) -> bool)
    requires DistinctIds(sorted) && forall y :: y in sorted ==> y.id != x.id
    ensures DistinctIds(Insert(sorted, x, le))
  {
    var n := |sorted| - 1;
    if sorted != [] && !le(sorted[n], x) {
      InsertDistinct(sorted[..n], x, le);
      var front := Insert(sorted[..n], x, le);
      forall i | 0 <= i < |front| ensures front[i].id != sorted[n].id {
        InsertedFrom(sorted[..n], x, le, i);
      }
    }
  }

  lemma {:induction false} SortDistinct(jobs: seq<Job>, le: (Job, Job) -> bool)
    requires DistinctIds(jobs)
    ensures DistinctIds(SortBy(jobs, le))
  {
    if jobs != [] {
      var n := |jobs| - 1;
      SortDistinct(jobs[..n], le);
      SameMembers(SortBy(jobs[..n], le), jobs[..n]);
      InsertDistinct(SortBy(jobs[..n], le), jobs[n], le);
    }
  }

  lemma {:induction false} WaitersDistinct(jobs: seq<Job>)
    requires DistinctIds(jobs)
    ensures DistinctIds(Waiters(jobs))
  {
    if jobs != [] {
      var n := |jobs| - 1;
      WaitersDistinct(jobs[..n]);
    }
  }

  /** Non-idling selection: unless an aged job drains the queue, someone is chosen exactly
      when someone fits, and it is a fitting waiter that precedes all others. */
  method NextWaiter(jobs: seq<Job>, h: Host, v: View) returns (chosen: Option<Job>, after: seq<Job>)
    requires DistinctIds(jobs)
    ensures (exists d :: Drains(jobs, h, v, d)) ==> chosen.Some? && LeadsDrain(jobs, h, v, chosen.value)
    ensures !(exists d :: Drains(jobs, h, v, d)) ==>
      && (chosen == None <==> forall w :: w in Waiters(jobs) ==> !Fits(jobs, h, v, w))
      && (chosen.Some? ==> Leads(jobs, h, v, chosen.value))
    ensures after == Passed(jobs, h, |Rotation(jobs, v)|)
  {
    RotationIsOrdered(jobs, v);
    WaitersDistinct(jobs);
    SortDistinct(Waiters(jobs), ByTurn(v));
    var waiting := Rotation(jobs, v);
    var fitting;
    fitting, after := DecideAll(jobs, h, v);
    InLaneKeepsOrder(waiting, Heavy, ByTurn(v));
    chosen := FindDrain(jobs, InLane(waiting, Heavy), h, v, fitting);
    if chosen.None? {
      OrderIsPermutation(jobs, v);
      SameMembers(Order(jobs, v), Waiters(jobs));
      chosen := FirstFitting(jobs, Order(jobs, v), h, v, fitting);
    }
  }

  lemma DecidedAlike(jobs: seq<Job>, h: Host, n: nat, k: nat, w: Job)
    requires SaneJobs(jobs) && GoodSample(h, n) && ClocksAdvance(h, n) && NoneAges(jobs, h, n) && k < n
    ensures Allows(Passed(jobs, h, 1), h, w) <==> Allows(Passed(jobs, h, k + 1), h, w)
  {
    PassesAgree(jobs, h, n, k + 1);
    SameVerdict(Passed(jobs, h, 1), Passed(jobs, h, k + 1), h, w);
  }

  /** One selection decides all its waiters alike: with clocks that advance from pass to pass, a
      waiter fits exactly when it fits the registry that the first pass leaves, unless the
      startup burst of some running job ends between two of the passes. */
  lemma OneRegistryForAll(jobs: seq<Job>, h: Host, v: View, w: Job)
    requires var n := |Rotation(jobs, v)|;
      SaneJobs(jobs) && GoodSample(h, n) && ClocksAdvance(h, n) && NoneAges(jobs, h, n)
    ensures Fits(jobs, h, v, w) <==> w in Waiters(jobs) && Allows(Passed(jobs, h, 1), h, w)
  {
    var waiting := Rotation(jobs, v);
    RotationIsOrdered(jobs, v);
    if k :| FitsAt(jobs, h, waiting, k, w) {
      DecidedAlike(jobs, h, |waiting|, k, w);
    }
    if w in Waiters(jobs) && Allows(Passed(jobs, h, 1), h, w) {
      var k :| 0 <= k < |waiting| && waiting[k] == w;
      DecidedAlike(jobs, h, |waiting|, k, w);
      assert FitsAt(jobs, h, waiting, k, w);
    }
  }
}
