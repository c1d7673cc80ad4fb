/** Memory pressure over runs of locked blocks: what the stored controller remembers of the
    samples, and when that holds adaptive admissions back (advance in libexec/admission.py). */
module Pressure {
  import opened Common
  import opened Admission
  import Decisions
  import Jobs

  // ---------------------------------------------------------------- the samples

  /** A block whose observation is kept: it was not cut short, and holds a sample. */
  predicate Offers(b: Block) { !b.outcome.Abandoned? && b.sample.Some? && !b.sample.value.busy }

  function StampOf(b: Block): real
    requires b.sample.Some?
  {
    if b.sample.value.monotonic.Some? then b.sample.value.monotonic.value else b.now
  }

  /** The last of the first n blocks whose sample was taken into account. */
  function LastTaken(run: seq<Block>, n: nat): (k: Option<nat>)
    requires n <= |run|
    ensures k.Some? ==> k.value < n && Offers(run[k.value])
  {
    if n == 0 then None
    else
      var prior := LastTaken(run, n - 1);
      if Offers(run[n - 1]) && (prior.None? || Follows(run[prior.value], run[n - 1])) then Some(n - 1) else prior
  }

  /** Of another boot, or newer. */
  predicate Follows(a: Block, b: Block)
    requires a.sample.Some? && b.sample.Some?
  {
    || a.sample.value.bootId != b.sample.value.bootId
    || StampOf(a) < 0.0 || StampOf(b) < 0.0 || StampOf(b) > StampOf(a)
  }

  predicate Taken(run: seq<Block>, k: nat) { k < |run| && LastTaken(run, k + 1) == Some(k) }

  predicate SameBoot(run: seq<Block>, i: nat, k: nat) {
    && i < |run| && k < |run| && run[i].sample.Some? && run[k].sample.Some?
    && run[i].sample.value.bootId == run[k].sample.value.bootId
  }

  /** Pages are written to swap fast while memory is already under pressure. */
  predicate Pages(b: Block) {
    && b.sample.Some? && b.sample.value.pressure == Some(2)
    && b.sample.value.swapOutKbps.Some? && b.sample.value.swapOutKbps.value >= 131072.0
  }

  /** The sample failed, or the pressure is unknown or critical. */
  predicate Bad(b: Block) {
    b.sample.Some? && (b.sample.value.fault == Some(true)
                       || (b.sample.value.pressure != Some(1) && b.sample.value.pressure != Some(2)))
  }

  /** From sample i to sample k everything taken into account was paging, under one boot. */
  predicate Stretch(run: seq<Block>, i: nat, k: nat) {
    && i <= k && Taken(run, i) && Taken(run, k)
    && forall m: nat :: i <= m <= k && Taken(run, m) ==> PagesUnder(run, m, k)
  }

  /** Sample m pages, under the boot of sample k. */
  predicate PagesUnder(run: seq<Block>, m: nat, k: nat) { SameBoot(run, m, k) && Pages(run[m]) }

  /** And what was taken before was not. */
  predicate Starts(run: seq<Block>, i: nat, k: nat) {
    && Stretch(run, i, k)
    && (LastTaken(run, i).Some? ==> !PagesUnder(run, LastTaken(run, i).value, i))
  }

  /** Paging for ten seconds, or a bad sample. */
  ghost predicate Alarms(run: seq<Block>, k: nat) {
    && Taken(run, k)
    && (Bad(run[k]) || exists i: nat :: Starts(run, i, k) && run[k].now - run[i].now >= 10.0)
  }

  /** A bad sample, or the first of a boot. */
  predicate Unsettles(run: seq<Block>, k: nat) {
    && Taken(run, k)
    && (Bad(run[k]) || LastTaken(run, k).None? || !SameBoot(run, LastTaken(run, k).value, k))
  }

  /** Everything taken since sample k is of its boot. */
  predicate Current(run: seq<Block>, n: nat, k: nat) {
    k < n && forall m: nat :: k <= m < n && Taken(run, m) ==> SameBoot(run, k, m)
  }

  ghost predicate LastAlarm(run: seq<Block>, n: nat, k: nat) {
    && Alarms(run, k) && Current(run, n, k) && forall m: nat :: k < m < n ==> !Alarms(run, m)
  }

  predicate LastUnsettling(run: seq<Block>, n: nat, k: nat) {
    k < n && Unsettles(run, k) && forall m: nat :: k < m < n ==> !Unsettles(run, m)
  }

  // -------------------------------------------------------------- the controller

  function ControllerAt(run: seq<Block>, n: nat): Controller
    requires n <= |run|
  {
    StoredAfter(NEW_CONTROLLER, run[..n])
  }

  lemma NextController(run: seq<Block>, n: nat)
    requires n < |run|
    ensures ControllerAt(run, n + 1) == Stored(ControllerAt(run, n), run[n])
  {
    assert run[..n + 1][..n] == run[..n];
  }

  /** Boot and stamp on record are those of the last sample taken. */
  lemma {:induction false} StampIsLast(run: seq<Block>, n: nat)
    requires n <= |run|
    ensures var c := ControllerAt(run, n);
      match LastTaken(run, n)
      case None => c.bootId == None && c.lastSample == None && c.pagingSince == None
                   && c.cooldownUntil == None && c.healthySince == None
      case Some(k) => c.bootId == run[k].sample.value.bootId && c.lastSample == Some(StampOf(run[k]))
  {
    if n > 0 {
      StampIsLast(run, n - 1);
      NextController(run, n - 1);
    }
  }

  /** Exactly the samples that count change what is remembered of samples. */
  lemma TakenExactly(run: seq<Block>, n: nat)
    requires n < |run|
    ensures var c, next := ControllerAt(run, n), ControllerAt(run, n + 1);
      if Taken(run, n)
      then next.(lastStart := None) == Advanced(c, run[n].sample.value, run[n].now).(lastStart := None)
           && !Stale(c, run[n].sample.value, run[n].now)
      else next.(lastStart := None) == c.(lastStart := None)
  {
    StampIsLast(run, n);
    NextController(run, n);
  }

  lemma {:induction false} NoneTakenSince(run: seq<Block>, n: nat, m: nat)
    requires n <= |run| && m < n && Taken(run, m)
    ensures LastTaken(run, n).Some? && m <= LastTaken(run, n).value
  {
    if m < n - 1 {
      NoneTakenSince(run, n - 1, m);
    }
  }

  lemma {:induction false} LastIsTaken(run: seq<Block>, n: nat)
    requires n <= |run|
    ensures LastTaken(run, n).Some? ==> Taken(run, LastTaken(run, n).value)
  {
    if n > 0 {
      LastIsTaken(run, n - 1);
    }
  }

  lemma StretchAt(run: seq<Block>, i: nat, k: nat, m: nat)
    requires Stretch(run, i, k) && i <= m <= k && Taken(run, m)
    ensures PagesUnder(run, m, k)
  {
  }

  lemma UnderNext(run: seq<Block>, m: nat, p: nat, k: nat)
    requires PagesUnder(run, m, p) && SameBoot(run, p, k)
    ensures PagesUnder(run, m, k)
  {
  }

  lemma LongerStretch(run: seq<Block>, i: nat, p: nat, k: nat)
    requires Stretch(run, i, p) && k < |run| && LastTaken(run, k) == Some(p) && Taken(run, k) && PagesUnder(run, k, p)
    ensures Stretch(run, i, k)
  {
    forall m: nat | i <= m <= k && Taken(run, m) ensures PagesUnder(run, m, k) {
      if m < k {
        NoneTakenSince(run, k, m);
        StretchAt(run, i, p, m);
        UnderNext(run, m, p, k);
      }
    }
  }

  /** When paging is on record, it is since the stretch began that the last sample belongs to. */
  lemma {:induction false} PagingExactly(run: seq<Block>, n: nat) returns (i: nat)
    requires n <= |run|
    ensures var since, last := ControllerAt(run, n).pagingSince, LastTaken(run, n);
      if last.Some? && Pages(run[last.value])
      then Starts(run, i, last.value) && since == Some(run[i].now)
      else since == None
  {
    i := 0;
    if n > 0 {
      var k := n - 1;
      i := PagingExactly(run, k);
      StampIsLast(run, k);
      TakenExactly(run, k);
      LastIsTaken(run, k);
      var prior := LastTaken(run, k);
      if Taken(run, k) && Pages(run[k]) {
        if prior.Some? && PagesUnder(run, prior.value, k) {
          LongerStretch(run, i, prior.value, k);
          assert Starts(run, i, k);
        } else {
          i := k;
        }
      }
    }
  }

  lemma StartsFirst(run: seq<Block>, i: nat, j: nat, k: nat)
    requires Stretch(run, i, k) && i < j && Stretch(run, j, k)
    ensures !Starts(run, j, k)
  {
    NoneTakenSince(run, j, i);
    LastIsTaken(run, j);
    var p := LastTaken(run, j).value;
    assert PagesUnder(run, p, k) && PagesUnder(run, j, k);
  }

  lemma StartsOnce(run: seq<Block>, i: nat, j: nat, k: nat)
    requires Starts(run, i, k) && Starts(run, j, k)
    ensures i == j
  {
    if i < j {
      StartsFirst(run, i, j, k);
    } else if j < i {
      StartsFirst(run, j, i, k);
    }
  }

  /** A sample alarms exactly when it sets the cooldown. */
  lemma AlarmsExactly(run: seq<Block>, k: nat)
    requires k < |run| && Taken(run, k)
    ensures var next := ControllerAt(run, k + 1);
      Alarms(run, k) <==> Bad(run[k]) || (next.pagingSince.Some? && run[k].now - next.pagingSince.value >= 10.0)
  {
    var i := PagingExactly(run, k + 1);
    forall j: nat | Starts(run, j, k) && Pages(run[k]) ensures j == i {
      StartsOnce(run, i, j, k);
    }
  }

  /** The first sample taken of its boot. */
  predicate Boots(run: seq<Block>, n: nat) {
    Taken(run, n) && (LastTaken(run, n).None? || !SameBoot(run, LastTaken(run, n).value, n))
  }

  lemma CooldownStep(run: seq<Block>, n: nat)
    requires n < |run|
    ensures ControllerAt(run, n + 1).cooldownUntil
      == if Alarms(run, n) then Some(run[n].now + 6.0)
         else if Boots(run, n) then None
         else ControllerAt(run, n).cooldownUntil
  {
    StampIsLast(run, n);
    TakenExactly(run, n);
    if Taken(run, n) {
      AlarmsExactly(run, n);
    }
  }

  lemma CurrentStays(run: seq<Block>, n: nat, k: nat)
    requires n < |run| && !Boots(run, n) && k < n && Taken(run, k)
    ensures Current(run, n + 1, k) <==> Current(run, n, k)
  {
    if Current(run, n, k) && Taken(run, n) {
      NoneTakenSince(run, n, k);
      LastIsTaken(run, n);
      SinceBoot(run, n, k, LastTaken(run, n).value);
    }
  }

  lemma SinceBoot(run: seq<Block>, n: nat, k: nat, p: nat)
    requires Current(run, n, k) && k <= p < n && Taken(run, p) && SameBoot(run, p, n)
    ensures Current(run, n + 1, k)
  {
  }

  lemma AlarmStays(run: seq<Block>, n: nat, k: nat)
    requires n < |run| && !Alarms(run, n) && !Boots(run, n)
    ensures LastAlarm(run, n + 1, k) <==> LastAlarm(run, n, k)
  {
    if Alarms(run, k) && k < n {
      CurrentStays(run, n, k);
    }
  }

  lemma NotCurrent(run: seq<Block>, n: nat, k: nat, p: nat)
    requires k <= p < n && Taken(run, p) && Taken(run, n) && !SameBoot(run, p, n)
    ensures !Current(run, n + 1, k)
  {
  }

  lemma BootsAfter(run: seq<Block>, n: nat, k: nat) returns (p: nat)
    requires n < |run| && Boots(run, n) && Taken(run, k) && k < n
    ensures k <= p < n && Taken(run, p) && !SameBoot(run, p, n)
  {
    NoneTakenSince(run, n, k);
    LastIsTaken(run, n);
    p := LastTaken(run, n).value;
  }

  lemma AlarmEnds(run: seq<Block>, n: nat, k: nat)
    requires n < |run| && Boots(run, n) && !Alarms(run, n)
    ensures !LastAlarm(run, n + 1, k)
  {
    if Alarms(run, k) && k < n {
      var p := BootsAfter(run, n, k);
      NotCurrent(run, n, k, p);
    }
  }

  /** The cooldown on record, if any, ends six seconds after sample k, the last that alarmed. */
  ghost predicate CooldownFrom(run: seq<Block>, n: nat, k: nat, until: Option<real>) {
    if until.Some? then LastAlarm(run, n, k) && until.value == run[k].now + 6.0
    else forall m: nat :: !LastAlarm(run, n, m)
  }

  lemma CooldownOn(run: seq<Block>, n: nat, k: nat, until: Option<real>) returns (next: nat)
    requires n < |run| && CooldownFrom(run, n, k, until)
    ensures CooldownFrom(run, n + 1, next,
                         if Alarms(run, n) then Some(run[n].now + 6.0) else if Boots(run, n) then None else until)
  {
    next := k;
    var after := n + 1;
    if Alarms(run, n) {
      next := n;
    } else if Boots(run, n) {
      forall m: nat ensures !LastAlarm(run, after, m) {
        AlarmEnds(run, n, m);
      }
    } else {
      forall m: nat ensures LastAlarm(run, after, m) <==> LastAlarm(run, n, m) {
        AlarmStays(run, n, m);
      }
    }
  }

  /** A cooldown is on record exactly if something alarmed since the boot, until six seconds
      after the last that did. */
  lemma {:induction false} CooldownExactly(run: seq<Block>, n: nat) returns (k: nat)
    requires n <= |run|
    ensures CooldownFrom(run, n, k, ControllerAt(run, n).cooldownUntil)
  {
    k := 0;
    if n > 0 {
      k := CooldownExactly(run, n - 1);
      CooldownStep(run, n - 1);
      k := CooldownOn(run, n - 1, k, ControllerAt(run, n - 1).cooldownUntil);
    }
  }

  lemma UnsettlingStays(run: seq<Block>, n: nat, k: nat)
    requires n < |run| && !Unsettles(run, n)
    ensures LastUnsettling(run, n + 1, k) <==> LastUnsettling(run, n, k)
  {
  }

  /** Health is on record since the last bad sample, or the first of the boot. */
  lemma {:induction false} HealthExactly(run: seq<Block>, n: nat) returns (k: nat)
    requires n <= |run|
    ensures var since := ControllerAt(run, n).healthySince;
      && (LastTaken(run, n).Some? <==> since.Some?)
      && (since.Some? ==> LastUnsettling(run, n, k) && since.value == run[k].now)
  {
    k := 0;
    if n > 0 {
      var last := n - 1;
      k := HealthExactly(run, last);
      StampIsLast(run, last);
      TakenExactly(run, last);
      if Unsettles(run, last) {
        k := last;
      } else {
        UnsettlingStays(run, last, k);
      }
    }
  }

  // ------------------------------------------------------------- held admissions

  lemma ViewIsController(run: seq<Block>, m: nat)
    requires ValidRun(NEW_CONTROLLER, run) && m < |run| && run[m].outcome.LaunchedGated?
    requires run[m].outcome.policy.mode == Adaptive
    ensures var c := ControllerAt(run, m + 1);
      && (c.cooldownUntil.Some? ==> run[m].now >= c.cooldownUntil.value)
      && c.healthySince.Some? && run[m].now >= c.healthySince.value + 2.0
  {
    NextController(run, m);
    var o := run[m].outcome;
    Decisions.AllowedExactly(o.policy, run[m].sample.value, Observed(ControllerAt(run, m), run[m]), run[m].now,
                             o.jobs, o.request);
  }

  lemma {:induction false} LastAlarmExists(run: seq<Block>, n: nat, k: nat) returns (last: nat)
    requires k < n <= |run| && Alarms(run, k) && Current(run, n, k)
    ensures k <= last && LastAlarm(run, n, last)
    decreases n - k
  {
    last := k;
    if m: nat :| k < m < n && Alarms(run, m) {
      CurrentFrom(run, n, k, m);
      last := LastAlarmExists(run, n, m);
    }
  }

  lemma CurrentFrom(run: seq<Block>, n: nat, k: nat, m: nat)
    requires Current(run, n, k) && k <= m < n && Taken(run, m)
    ensures Current(run, n, m)
  {
  }

  lemma ClockAdvances(run: seq<Block>, i: nat, j: nat)
    requires ValidRun(NEW_CONTROLLER, run) && i <= j < |run|
    ensures run[i].now <= run[j].now
  {
    if i < j {
      assert run[i].now <= Ends(run[i]) <= run[j].now;
    }
  }

  lemma LongPagingAlarms(run: seq<Block>, i: nat, k: nat)
    requires ValidRun(NEW_CONTROLLER, run) && Stretch(run, i, k) && run[k].now - run[i].now >= 10.0
    ensures Alarms(run, k)
  {
    assert PagesUnder(run, k, k);
    var first := PagingExactly(run, k + 1);
    if i < first {
      StartsFirst(run, i, first, k);
    }
    ClockAdvances(run, first, i);
  }

  /** Pressure holds adaptive admissions back. Within six seconds of a bad sample that was taken
      into account, or of one that ends ten seconds of nothing but paging samples, no
      supervisor is admitted in adaptive mode, whatever other blocks ran in between. */
  lemma NoStartWhileCooling(run: seq<Block>, i: nat, k: nat, m: nat)
    requires ValidRun(NEW_CONTROLLER, run) && k <= m < |run| && Taken(run, k) && Current(run, m + 1, k)
    requires Bad(run[k]) || (Stretch(run, i, k) && run[k].now - run[i].now >= 10.0)
    requires run[m].outcome.LaunchedGated? && run[m].outcome.policy.mode == Adaptive
    ensures run[m].now >= run[k].now + 6.0
  {
    if !Bad(run[k]) {
      LongPagingAlarms(run, i, k);
    }
    var last := LastAlarmExists(run, m + 1, k);
    var from := CooldownExactly(run, m + 1);
    ClockAdvances(run, k, last);
    ViewIsController(run, m);
  }

  lemma {:induction false} LastUnsettlingExists(run: seq<Block>, n: nat, k: nat) returns (last: nat)
    requires k < n <= |run| && Unsettles(run, k)
    ensures k <= last && LastUnsettling(run, n, last)
    decreases n - k
  {
    last := k;
    if m: nat :| k < m < n && Unsettles(run, m) {
      last := LastUnsettlingExists(run, n, m);
    }
  }

  /** Nor is one within two seconds of a bad sample or of the first of a boot. */
  lemma NoStartWhileUnsettled(run: seq<Block>, k: nat, m: nat)
    requires ValidRun(NEW_CONTROLLER, run) && k <= m < |run| && Unsettles(run, k)
    requires run[m].outcome.LaunchedGated? && run[m].outcome.policy.mode == Adaptive
    ensures run[m].now >= run[k].now + 2.0
  {
    var last := LastUnsettlingExists(run, m + 1, k);
    var from := HealthExactly(run, m + 1);
    ClockAdvances(run, k, last);
    ViewIsController(run, m);
  }

  /** And a refusal for paging always has such a cause, less than six seconds ago. */
  lemma PagingRefusalIsDue(run: seq<Block>, m: nat, policy: Policy, jobs: seq<Jobs.Job>, request: Request)
    returns (k: nat)
    requires m < |run| && run[m].sample.Some? && run[m].now >= 0.0
    requires Verdict(policy, run[m].sample.value, ControllerAt(run, m + 1), run[m].now, jobs, request).reason == Paging
    ensures LastAlarm(run, m + 1, k) && run[m].now < run[k].now + 6.0
  {
    k := CooldownExactly(run, m + 1);
    Decisions.ReasonExactly(policy, run[m].sample.value, ControllerAt(run, m + 1), run[m].now, jobs, request);
  }
}
