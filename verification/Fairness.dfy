/** Turn history (Scheduler.record_turn) and the bound it gives on overtaking. */
module Fairness {
  import opened Common
  import opened Jobs
  import opened Selection
  import opened Passes

  const HISTORY: nat := 128

  /** The highest recorded turn; zero when there is none. */
  ghost predicate IsHighest(turns: Turns, m: nat) {
    && (forall b :: b in turns ==> turns[b] <= m)
    && (turns == map[] ==> m == 0)
    && (turns != map[] ==> exists b :: b in turns && turns[b] == m)
  }

  /** The most recent turns, at most n of them, however ties are broken. */
  ghost predicate MostRecent(recent: set<Bucket>, turns: Turns, n: nat) {
    && recent <= turns.Keys
    && |recent| == (if |turns| < n then |turns| else n)
    && forall a, b :: a in recent && b in turns && b !in recent ==> turns[b] <= turns[a]
  }

  function Present(jobs: seq<Job>): set<Bucket> { set j | j in jobs :: BucketOf(j) }

  function Restrict(turns: Turns, keep: set<Bucket>): Turns {
    map k | k in turns && k in keep :: turns[k]
  }

  ghost predicate RecordedWith(turns: Turns, jobs: seq<Job>, b: Bucket, m: nat, recent: set<Bucket>, next: Turns) {
    && IsHighest(turns, m)
    && MostRecent(recent, turns[b := m + 1], HISTORY)
    && next == Restrict(turns[b := m + 1], Present(jobs) + recent)
  }

  /** The history after an admission: the session moves behind every other, and only live
      contenders and the most recent sessions are retained. */
  ghost predicate Recorded(turns: Turns, jobs: seq<Job>, b: Bucket, next: Turns) {
    exists m: nat, recent :: RecordedWith(turns, jobs, b, m, recent, next)
  }

  /** The part of the registry that rotates. */
  class Rotor {
    var turns: Turns
    var smallStreak: int

    constructor ()
      ensures turns == map[] && smallStreak == 0
    {
      turns, smallStreak := map[], 0;
    }

    static method Highest(turns: Turns) returns (m: nat)
      ensures IsHighest(turns, m)
    {
      m := 0;
      var rest := turns.Keys;
      while rest != {}
        invariant rest <= turns.Keys
        invariant forall b :: b in turns && b !in rest ==> turns[b] <= m
        invariant rest == turns.Keys ==> m == 0
        invariant m > 0 ==> exists b :: b in turns && turns[b] == m
        decreases |rest|
      {
        var b := Take(rest);
        if turns[b] > m {
          m := turns[b];
        }
        rest := rest - {b};
      }
      if turns != map[] && m == 0 {
        var b := Take(turns.Keys);
        assert turns[b] == 0;
      }
    }

    /** The n most recent sessions, taken one at a time. */
    static method Recent(turns: Turns, n: nat) returns (recent: set<Bucket>)
      ensures MostRecent(recent, turns, n)
    {
      recent := {};
      var rest := turns.Keys;
      while |recent| < n && rest != {}
        invariant recent !! rest && recent + rest == turns.Keys && |recent| <= n
        invariant forall a, b :: a in recent && b in rest ==> turns[b] <= turns[a]
        decreases |rest|
      {
        var top := Take(rest);
        var left := rest;
        while left != {}
          invariant left <= rest && top in rest
          invariant forall b :: b in rest && b !in left ==> turns[b] <= turns[top]
          decreases |left|
        {
          var b := Take(left);
          if turns[b] > turns[top] {
            top := b;
          }
          left := left - {b};
        }
        recent, rest := recent + {top}, rest - {top};
      }
      assert |turns.Keys| == |recent| + |rest|;
    }

    method RecordTurn(jobs: seq<Job>, job: Job)
      modifies this
      ensures Recorded(old(turns), jobs, BucketOf(job), turns)
      ensures smallStreak == if LaneOf(job) == Small then Min(SMALL_BURST, Max(0, old(smallStreak)) + 1) else 0
    {
      smallStreak := if LaneOf(job) == Small then Min(SMALL_BURST, Max(0, smallStreak) + 1) else 0;
      var m := Highest(turns);
      var lifted := turns[BucketOf(job) := m + 1];
      var present := Present(jobs);
      var recent := Recent(lifted, HISTORY);
      assert RecordedWith(turns, jobs, BucketOf(job), m, recent, Restrict(lifted, present + recent));
      turns := Restrict(lifted, present + recent);
    }
  }

  /** Some job of the session is registered. */
  ghost predicate HasJob(jobs: seq<Job>, b: Bucket) { exists j :: j in jobs && BucketOf(j) == b }

  /** All of these turns are kept, and none is earlier. */
  predicate NoEarlier(recent: set<Bucket>, next: Turns, turn: nat) {
    forall a :: a in recent ==> a in next && next[a] >= turn
  }

  lemma RecentOrDropped(turns: Turns, recent: set<Bucket>, c: Bucket)
    requires MostRecent(recent, turns, 128) && c in turns && c !in recent
    ensures |recent| == 128 && NoEarlier(recent, turns, turns[c])
  {
    assert turns.Keys == recent + (turns.Keys - recent) && c in turns.Keys - recent;
    assert |turns.Keys| == |turns|;
  }

  lemma HighestIsRecent(turns: Turns, recent: set<Bucket>, b: Bucket)
    requires MostRecent(recent, turns, 128) && b in turns && forall c :: c in turns && c != b ==> turns[c] < turns[b]
    ensures b in recent
  {
    if b !in recent {
      RecentOrDropped(turns, recent, b);
    }
  }

  lemma StillNoEarlier(turns: Turns, keep: set<Bucket>, recent: set<Bucket>, turn: nat)
    requires NoEarlier(recent, turns, turn) && recent <= keep
    ensures NoEarlier(recent, Restrict(turns, keep), turn)
  {
  }

  lemma HighestIsNext(turns: Turns, jobs: seq<Job>, b: Bucket, m: nat, recent: set<Bucket>, next: Turns)
    requires RecordedWith(turns, jobs, b, m, recent, next)
    ensures b in next && next[b] == m + 1
    ensures forall c :: c in next && c != b ==> c in turns && next[c] == turns[c]
  {
    HighestIsRecent(turns[b := m + 1], recent, b);
  }

  lemma KeptFor(turns: Turns, jobs: seq<Job>, b: Bucket, m: nat, recent: set<Bucket>, next: Turns, c: Bucket)
    requires RecordedWith(turns, jobs, b, m, recent, next)
    ensures c in next ==> c in recent || HasJob(jobs, c)
    ensures c in turns && c !in next ==>
      !HasJob(jobs, c) && |recent| == 128 && NoEarlier(recent, next, turns[c])
  {
    var lifted := turns[b := m + 1];
    HighestIsRecent(lifted, recent, b);
    if c in turns && c !in next {
      RecentOrDropped(lifted, recent, c);
      StillNoEarlier(lifted, Present(jobs) + recent, recent, turns[c]);
    }
  }

  /** What an admission leaves of the turns: the session served comes behind all by one; no other
      turn changes; a session is forgotten only without a job, and only for 128 that were
      served no earlier; and of sessions without a job at most 128 are kept. */
  lemma TurnsExactly(turns: Turns, jobs: seq<Job>, b: Bucket, next: Turns) returns (recent: set<Bucket>)
    requires Recorded(turns, jobs, b, next)
    ensures b in next && (forall c :: c in turns ==> turns[c] < next[b])
    ensures if turns == map[] then next[b] == 1 else exists c :: c in turns && next[b] == turns[c] + 1
    ensures forall c :: c in next && c != b ==> c in turns && next[c] == turns[c]
    ensures |recent| <= 128 && forall c :: c in next ==> c in recent || HasJob(jobs, c)
    ensures forall c :: c in turns && c !in next ==>
      !HasJob(jobs, c) && |recent| == 128 && NoEarlier(recent, next, turns[c])
  {
    var m: nat;
    m, recent :| RecordedWith(turns, jobs, b, m, recent, next);
    HighestIsNext(turns, jobs, b, m, recent, next);
    forall c ensures c in next ==> c in recent || HasJob(jobs, c) {
      KeptFor(turns, jobs, b, m, recent, next, c);
    }
    forall c | c in turns && c !in next
      ensures !HasJob(jobs, c) && |recent| == 128 && NoEarlier(recent, next, turns[c])
    {
      KeptFor(turns, jobs, b, m, recent, next, c);
    }
  }

  // -------------------------------------------------------- bounded overtaking

  /** One admission: the registry and host state it was selected under, and whom it chose. */
  datatype Turn = Turn(jobs: seq<Job>, host: Host, view: View, chosen: Job)

  /** While this admission was selected, session s had no running finite job and a waiter that fitted. */
  ghost predicate Contends(t: Turn, s: Bucket) {
    && Active(t.jobs, s) == 0
    && exists w :: w in Waiters(t.jobs) && Fits(t.jobs, t.host, t.view, w) && BucketOf(w) == s
  }

  /** A run of admissions, each the selection's choice, threaded through the turn history.
      Between admissions jobs arrive, finish and change without restriction. */
  ghost predicate Run(run: seq<Turn>) {
    && (forall i :: 0 <= i < |run| ==>
        Fair(Waiters(run[i].jobs)) && Leads(run[i].jobs, run[i].host, run[i].view, run[i].chosen))
    && (forall i :: 0 <= i < |run| - 1 ==>
          Recorded(run[i].view.turns, run[i].jobs, BucketOf(run[i].chosen), run[i + 1].view.turns))
  }

  function TurnIn(turns: Turns, b: Bucket): nat { if b in turns then turns[b] else 0 }

  /** The sessions admitted in a run, in order. */
  function Admitted(run: seq<Turn>): (buckets: seq<Bucket>)
    ensures |buckets| == |run| && forall i :: 0 <= i < |run| ==> buckets[i] == BucketOf(run[i].chosen)
  {
    seq(|run|, i requires 0 <= i < |run| => BucketOf(run[i].chosen))
  }

  /** Sessions admitted so far sit above everyone else in the history, in order of admission. */
  ghost predicate Lifted(turns: Turns, served: seq<Bucket>, base: nat) {
    && (forall i :: 0 <= i < |served| ==> served[i] in turns && turns[served[i]] > base)
    && (forall i, j :: 0 <= i < j < |served| ==> turns[served[i]] < turns[served[j]])
    && (forall i, b :: 0 <= i < |served| && b in turns && b !in served ==> turns[b] < turns[served[i]])
  }

  predicate Distinct(buckets: seq<Bucket>) {
    forall i, j :: 0 <= i < j < |buckets| ==> buckets[i] != buckets[j]
  }

  lemma {:induction false} DistinctCount(buckets: seq<Bucket>, pool: set<Bucket>)
    requires Distinct(buckets) && forall b :: b in buckets ==> b in pool
    ensures |buckets| <= |pool|
  {
    if buckets != [] {
      var n := |buckets| - 1;
      DistinctCount(buckets[..n], pool - {buckets[n]});
    }
  }

  /** Pruning keeps every session served since s began to contend: fewer than 128 others
      are more recent than it. */
  lemma ServedSurvivesPruning(turns: Turns, recent: set<Bucket>, served: seq<Bucket>, base: nat, k: nat)
    requires Lifted(turns, served, base) && MostRecent(recent, turns, HISTORY)
    requires |served| <= HISTORY && k < |served|
    ensures served[k] in recent
  {
    if served[k] !in recent {
      var others := (set b | b in served) - {served[k]};
      forall b | b in recent ensures b in others {
        assert turns[served[k]] <= turns[b];
      }
      ServedSetSize(served, k);
      SubsetSize(recent, others);
      if |turns| < HISTORY {
        SubsetSize(recent + {served[k]}, turns.Keys);
      }
    }
  }

  lemma {:induction false} ServedSetSize(served: seq<Bucket>, k: nat)
    requires k < |served|
    ensures |(set b | b in served) - {served[k]}| < |served|
  {
    var all := set b | b in served;
    SetOfSeqSize(served);
    assert |all - {served[k]}| == |all| - 1;
  }

  lemma {:induction false} SetOfSeqSize(s: seq<Bucket>)
    ensures |set b | b in s| <= |s|
  {
    if s == [] {
      assert (set b | b in s) == {};
    } else {
      var n := |s| - 1;
      SetOfSeqSize(s[..n]);
      assert (set b | b in s) == (set b | b in s[..n]) + {s[n]};
    }
  }

  lemma {:induction false} SubsetSize<T>(a: set<T>, b: set<T>)
    requires a <= b
    ensures |a| <= |b|
  {
    assert b == a + (b - a);
  }

  lemma LiftedAbove(turns: Turns, b: Bucket, m: nat, served: seq<Bucket>, s: Bucket)
    requires IsHighest(turns, m) && s != b && b !in served
    requires Lifted(turns, served, TurnIn(turns, s))
    ensures Lifted(turns[b := m + 1], served + [b], TurnIn(turns, s))
  {
    assert forall c :: c in served + [b] <==> c in served || c == b;
  }

  lemma RestrictKeepsLifted(turns: Turns, keep: set<Bucket>, served: seq<Bucket>, base: nat)
    requires Lifted(turns, served, base) && forall b :: b in served ==> b in keep
    ensures Lifted(Restrict(turns, keep), served, base)
  {
  }

  /** One recorded turn lifts the served session above all and leaves the contender's turn alone. */
  lemma {:induction false} RecordedLifts(turns: Turns, jobs: seq<Job>, b: Bucket, next: Turns, served: seq<Bucket>,
                                         s: Bucket)
    requires s in Present(jobs) && s != b && b !in served && |served| < HISTORY
    ensures Recorded(turns, jobs, b, next) && Lifted(turns, served, TurnIn(turns, s)) ==>
      Lifted(next, served + [b], TurnIn(turns, s)) && TurnIn(next, s) == TurnIn(turns, s)
  {
    if Recorded(turns, jobs, b, next) && Lifted(turns, served, TurnIn(turns, s)) {
      var m: nat, recent :| RecordedWith(turns, jobs, b, m, recent, next);
      var lifted := turns[b := m + 1];
      var now := served + [b];
      LiftedAbove(turns, b, m, served, s);
      forall c | c in now ensures c in recent {
        var k :| 0 <= k < |now| && now[k] == c;
        ServedSurvivesPruning(lifted, recent, now, TurnIn(turns, s), k);
      }
      RestrictKeepsLifted(lifted, Present(jobs) + recent, now, TurnIn(turns, s));
    }
  }

  /** What one admission means for the history, while s contends: the session served had
      no later turn than s. */
  datatype Entry = Entry(turns: Turns, jobs: seq<Job>, served: Bucket)

  ghost predicate Ledger(log: seq<Entry>, s: Bucket) {
    && (forall i :: 0 <= i < |log| ==>
          && s in Present(log[i].jobs) && log[i].served != s
          && TurnIn(log[i].turns, log[i].served) <= TurnIn(log[i].turns, s))
    && (forall i :: 0 <= i < |log| - 1 ==> Recorded(log[i].turns, log[i].jobs, log[i].served, log[i + 1].turns))
  }

  function ServedIn(log: seq<Entry>): (buckets: seq<Bucket>)
    ensures |buckets| == |log| && forall i :: 0 <= i < |log| ==> buckets[i] == log[i].served
  {
    if log == [] then [] else ServedIn(log[..|log| - 1]) + [log[|log| - 1].served]
  }

  lemma LedgerFront(log: seq<Entry>, s: Bucket)
    requires log != [] && Ledger(log, s)
    ensures Ledger(log[..|log| - 1], s)
  {
  }

  lemma NotLifted(turns: Turns, earlier: seq<Bucket>, b: Bucket, base: nat)
    requires Lifted(turns, earlier, base) && TurnIn(turns, b) <= base
    ensures b !in earlier
  {
  }

  lemma DistinctMore(earlier: seq<Bucket>, b: Bucket)
    requires Distinct(earlier) && b !in earlier
    ensures Distinct(earlier + [b])
  {
  }

  /** While s contends unserved, the sessions served instead are pairwise distinct. */
  lemma {:induction false} OvertakersAreDistinct(log: seq<Entry>, s: Bucket)
    requires log != [] && |log| <= HISTORY && Ledger(log, s)
    ensures var n := |log| - 1;
      Lifted(log[n].turns, ServedIn(log[..n]), TurnIn(log[n].turns, s)) && Distinct(ServedIn(log))
  {
    var n := |log| - 1;
    if n > 0 {
      var front := log[..n];
      LedgerFront(log, s);
      OvertakersAreDistinct(front, s);
      var earlier := ServedIn(front[..n - 1]);
      NotLifted(log[n - 1].turns, earlier, log[n - 1].served, TurnIn(log[n - 1].turns, s));
      RecordedLifts(log[n - 1].turns, log[n - 1].jobs, log[n - 1].served, log[n].turns, earlier, s);
    }
    NotLifted(log[n].turns, ServedIn(log[..n]), log[n].served, TurnIn(log[n].turns, s));
    DistinctMore(ServedIn(log[..n]), log[n].served);
  }

  /** The selection's choice has no later turn than a fitting waiter of an idle session. */
  lemma LeaderWasNotLater(t: Turn, s: Bucket)
    requires Fair(Waiters(t.jobs)) && Leads(t.jobs, t.host, t.view, t.chosen) && Contends(t, s)
    ensures s in Present(t.jobs)
    ensures TurnIn(t.view.turns, BucketOf(t.chosen)) <= TurnIn(t.view.turns, s)
  {
    var w :| w in Waiters(t.jobs) && Fits(t.jobs, t.host, t.view, w) && BucketOf(w) == s;
    assert w != t.chosen ==> Precedes(t.jobs, t.view)(t.chosen, w);
  }

  function Log(run: seq<Turn>): seq<Entry> {
    seq(|run|, i requires 0 <= i < |run| => Entry(run[i].view.turns, run[i].jobs, BucketOf(run[i].chosen)))
  }

  lemma RunIsLedger(run: seq<Turn>, s: Bucket)
    requires Run(run) && forall i :: 0 <= i < |run| ==> Contends(run[i], s) && BucketOf(run[i].chosen) != s
    ensures Ledger(Log(run), s)
  {
    var log := Log(run);
    forall i | 0 <= i < |log|
      ensures s in Present(log[i].jobs) && log[i].served != s
        && TurnIn(log[i].turns, log[i].served) <= TurnIn(log[i].turns, s)
    {
      LeaderWasNotLater(run[i], s);
    }
  }

  /** A ledger whose sessions come from a pool is shorter than the pool: were it not, its
      first |pool| admissions would already serve someone twice. */
  lemma LedgerIsShort(log: seq<Entry>, s: Bucket, pool: set<Bucket>)
    requires Ledger(log, s) && s in pool && |pool| <= HISTORY
    requires forall i :: 0 <= i < |log| ==> log[i].served in pool
    ensures |log| <= |pool| - 1 && Distinct(ServedIn(log))
  {
    if log != [] {
      var first := if |log| <= |pool| then log else log[..|pool|];
      OvertakersAreDistinct(first, s);
      DistinctCount(ServedIn(first), pool - {s});
    }
  }

  /** Bounded overtaking. Let the waiters' sessions come from a pool of at most 128, all
      waiters supporting the fair rotation. If session s contends at every admission of a
      run and none of them is its own, the run is shorter than the pool: each other
      session overtakes s at most once. */
  lemma {:induction false} BoundedOvertaking(run: seq<Turn>, s: Bucket, pool: set<Bucket>)
    requires Run(run) && s in pool && |pool| <= HISTORY
    requires forall i :: 0 <= i < |run| ==> Contends(run[i], s) && BucketOf(run[i].chosen) in pool - {s}
    ensures |run| <= |pool| - 1 && Distinct(Admitted(run))
  {
    RunIsLedger(run, s);
    LedgerIsShort(Log(run), s, pool);
    assert ServedIn(Log(run)) == Admitted(run);
  }
}
