/** The observation certificate (reconcile, accumulate and complete_at in
    libexec/job_observation.py): obligations over whole histories of samples. */
module Certificate {
  import opened Common
  import opened Observation

  datatype State = State(
    began: Option<real>,
    last: Option<real>,
    complete: bool,
    incomplete: bool,
    pending: map<Pid, Start>,
    pendingSeen: nat,
    pendingResolved: nat,
    samples: nat,
    peakKb: int,
    missing: nat,
    faults: nat,
    reasons: Reasons,
    usage: map<Pid, int>)

  function Fresh(began: Option<real>): State {
    State(began, None, false, false, map[], 0, 0, 0, 0, 0, 0, NO_REASONS, map[])
  }

  /** A sample no newer than the last one taken into account. */
  predicate Stale(st: State, s: Sample) { s.at <= st.last.GetOr(-1.0) }

  // ---------------------------------------------------------------- accumulation

  function Gap(st: State, s: Sample): real { s.at - st.last.GetOr(st.began.GetOr(s.at)) }

  /** Evidence that can never certify a low peak: an unexplained incomplete sample or a gap. */
  predicate Poisons(st: State, s: Sample) { (!s.complete && !BirthOnly(s)) || Gap(st, s) > 5.0 }

  function Accumulated(st: State, s: Sample): State {
    if Stale(st, s) then st else
    var incomplete := st.incomplete || Poisons(st, s);
    var samples := st.samples + (if s.complete then 1 else 0);
    st.(last := Some(s.at),
        incomplete := incomplete,
        reasons := Plus(st.reasons, s.reasons).(
          gap := st.reasons.gap + s.reasons.gap + if Gap(st, s) > 5.0 then 1 else 0),
        samples := samples,
        peakKb := Max(st.peakKb, s.peakKb),
        missing := st.missing + s.missing,
        faults := st.faults + s.fault,
        usage := s.usage,
        complete := samples >= 2 && !incomplete)
  }

  // ---------------------------------------------------------------- obligations

  /** A birth that is not yet an obligation under this identity. */
  predicate Arrives(pending: map<Pid, Start>, p: Pid, start: Start) { Lookup(pending, p) != Some(start) }

  function Arrivals(pending: map<Pid, Start>, births: map<Pid, Start>): set<Pid> {
    set p | p in births && Arrives(pending, p, births[p])
  }

  /** Obligations whose pid such a birth takes over. */
  function Overwritten(pending: map<Pid, Start>, births: map<Pid, Start>): set<Pid> {
    set p | p in births && p in pending && Arrives(pending, p, births[p])
  }

  /** The sample's paired reads settle an obligation. */
  predicate Settles(s: Sample, p: Pid, start: Start) {
    s.complete && Lookup(s.identities, p) == Some(start) && p in s.footprints
  }

  function Settled(pending: map<Pid, Start>, s: Sample): set<Pid> {
    set p | p in pending && Settles(s, p, pending[p])
  }

  /** Obligations whose process is gone unmeasured. */
  function Lost(pending: map<Pid, Start>, s: Sample, current: map<Pid, Start>): set<Pid> {
    set p | p in pending && !Settles(s, p, pending[p]) && Lookup(current, p) != Some(pending[p])
  }

  /** Live processes this sample neither measured nor already owes. */
  function Discovered(pending: map<Pid, Start>, s: Sample, current: map<Pid, Start>): set<Pid> {
    set p | p in current && Lookup(s.identities, p) != Some(current[p]) && Lookup(pending, p) != Some(current[p])
  }

  function Only(m: map<Pid, Start>, keep: set<Pid>): map<Pid, Start> { map p | p in m && p in keep :: m[p] }

  /** The three steps of settling a sample: births enter, settled and lost entries leave,
      discoveries enter. */
  datatype Ledger = Ledger(entered: map<Pid, Start>, kept: map<Pid, Start>, pending: map<Pid, Start>,
                           failed: nat, seen: nat, resolved: nat)

  function Settlement(pending: map<Pid, Start>, s: Sample, current: map<Pid, Start>): Ledger {
    var entered := pending + s.births;
    var kept := entered - (Settled(entered, s) + Lost(entered, s, current));
    var found := Discovered(kept, s, current);
    Ledger(entered, kept, kept + Only(current, found),
           |Overwritten(pending, s.births)| + |Lost(entered, s, current)|,
           |Arrivals(pending, s.births)| + |found|,
           |Settled(entered, s)|)
  }

  /** The sample as it counts: a lost obligation makes it incomplete. */
  function Effective(s: Sample, failed: nat): Sample {
    if failed == 0 then s
    else s.(complete := false, missing := s.missing + failed, reasons := s.reasons.(refresh := failed))
  }

  /** The state with its obligations brought up to date. */
  function Owing(st: State, l: Ledger): State {
    st.(pending := l.pending, pendingSeen := st.pendingSeen + l.seen,
        pendingResolved := st.pendingResolved + l.resolved)
  }

  /** No certificate while an obligation is open. */
  function Sealed(st: State): State { st.(complete := st.complete && st.pending == map[]) }

  function Reconciled(st: State, s: Sample, current: map<Pid, Start>): State {
    if Stale(st, s) then st else
    var l := Settlement(st.pending, s, current);
    Sealed(Accumulated(Owing(st, l), Effective(s, l.failed)))
  }

  /** Iterations count the members of a set as they meet them. */
  function EnteredOne(entered: map<Pid, Start>, p: Pid, start: Start): map<Pid, Start> {
    if Arrives(entered, p, start) then entered[p := start] else entered
  }

  lemma OverwrittenLeft(entered: map<Pid, Start>, rest: map<Pid, Start>, p: Pid)
    requires p in rest
    ensures Overwritten(EnteredOne(entered, p, rest[p]), rest - {p}) == Overwritten(entered, rest) - {p}
  {
  }

  lemma ArrivalsLeft(entered: map<Pid, Start>, rest: map<Pid, Start>, p: Pid)
    requires p in rest
    ensures Arrivals(EnteredOne(entered, p, rest[p]), rest - {p}) == Arrivals(entered, rest) - {p}
  {
  }

  lemma EntriesLeft(entered: map<Pid, Start>, rest: map<Pid, Start>, p: Pid)
    requires p in rest
    ensures EnteredOne(entered, p, rest[p]) + (rest - {p}) == entered + rest
    ensures |rest - {p}| == |rest| - 1
  {
    assert (rest - {p}).Keys == rest.Keys - {p};
  }

  /** Entering one birth takes it off what is left to enter. */
  lemma EnterOne(entered: map<Pid, Start>, rest: map<Pid, Start>, p: Pid)
    requires p in rest
    ensures var arrives := Arrives(entered, p, rest[p]);
            var next := EnteredOne(entered, p, rest[p]);
      && next + (rest - {p}) == entered + rest && |rest - {p}| == |rest| - 1
      && |Overwritten(next, rest - {p})| == |Overwritten(entered, rest)| - (if arrives && p in entered then 1 else 0)
      && |Arrivals(next, rest - {p})| == |Arrivals(entered, rest)| - (if arrives then 1 else 0)
  {
    OverwrittenLeft(entered, rest, p);
    ArrivalsLeft(entered, rest, p);
    EntriesLeft(entered, rest, p);
    assert p in Arrivals(entered, rest) <==> Arrives(entered, p, rest[p]);
    assert p in Overwritten(entered, rest) <==> Arrives(entered, p, rest[p]) && p in entered;
  }

  lemma AddOneOf(base: map<Pid, Start>, more: map<Pid, Start>, whole: set<Pid>, rest: set<Pid>, p: Pid)
    requires p in more && p in rest
    ensures Lookup(base + Only(more, whole - rest), p) == Lookup(base, p)
    ensures base + Only(more, whole - (rest - {p}))
         == if p in whole then (base + Only(more, whole - rest))[p := more[p]] else base + Only(more, whole - rest)
  {
  }

  lemma DropOne(base: map<Pid, Start>, whole: set<Pid>, rest: set<Pid>, p: Pid)
    requires p in rest
    ensures base - (whole - (rest - {p})) == if p in whole then base - (whole - rest) - {p} else base - (whole - rest)
  {
  }

  /** Taking one element off what is left adds it to what is dealt with. */
  lemma CountOne(whole: set<Pid>, rest: set<Pid>, p: Pid)
    requires p in rest
    ensures |whole - (rest - {p})| == |whole - rest| + if p in whole then 1 else 0
  {
    if p in whole {
      assert whole - (rest - {p}) == (whole - rest) + {p};
    } else {
      assert whole - (rest - {p}) == whole - rest;
    }
  }

  lemma AllDone(whole: set<Pid>, rest: set<Pid>)
    requires rest == {}
    ensures whole - rest == whole
  {
  }

  lemma NothingDone(whole: set<Pid>, all: set<Pid>)
    requires whole <= all
    ensures whole - all == {}
  {
  }

  /** Obligations not in `rest` have been dealt with. */
  predicate Leaving(entered: map<Pid, Start>, s: Sample, current: map<Pid, Start>, rest: set<Pid>,
                    kept: map<Pid, Start>, failed: nat, resolved: nat)
  {
    && rest <= entered.Keys && kept == entered - (Settled(entered, s) + Lost(entered, s, current) - rest)
    && failed == |Lost(entered, s, current) - rest| && resolved == |Settled(entered, s) - rest|
  }

  lemma {:induction false} NothingLeft(entered: map<Pid, Start>, s: Sample, current: map<Pid, Start>)
    ensures Leaving(entered, s, current, entered.Keys, entered, 0, 0)
  {
    NothingDone(Settled(entered, s), entered.Keys);
    NothingDone(Lost(entered, s, current), entered.Keys);
    NothingDone(Settled(entered, s) + Lost(entered, s, current), entered.Keys);
  }

  lemma {:induction false} LeavingNext(entered: map<Pid, Start>, s: Sample, current: map<Pid, Start>, rest: set<Pid>,
                    kept: map<Pid, Start>, failed: nat, resolved: nat, p: Pid)
    requires Leaving(entered, s, current, rest, kept, failed, resolved) && p in rest
    ensures p in entered && var settles := Settles(s, p, entered[p]);
      var lost := !settles && Lookup(current, p) != Some(entered[p]);
      Leaving(entered, s, current, rest - {p}, if settles || lost then kept - {p} else kept,
              if lost then failed + 1 else failed, if settles then resolved + 1 else resolved)
  {
    CountOne(Lost(entered, s, current), rest, p);
    CountOne(Settled(entered, s), rest, p);
    DropOne(entered, Settled(entered, s) + Lost(entered, s, current), rest, p);
  }

  /** Processes not in `rest` have been looked at. */
  predicate Finding(kept: map<Pid, Start>, s: Sample, current: map<Pid, Start>, rest: set<Pid>,
                    pending: map<Pid, Start>, seen: nat) {
    && rest <= current.Keys && pending == kept + Only(current, Discovered(kept, s, current) - rest)
    && seen == |Discovered(kept, s, current) - rest|
  }

  lemma NothingFound(kept: map<Pid, Start>, s: Sample, current: map<Pid, Start>)
    ensures Finding(kept, s, current, current.Keys, kept, 0)
  {
    NothingDone(Discovered(kept, s, current), current.Keys);
  }

  lemma FindingNext(kept: map<Pid, Start>, s: Sample, current: map<Pid, Start>, rest: set<Pid>,
                    pending: map<Pid, Start>, seen: nat, p: Pid)
    requires Finding(kept, s, current, rest, pending, seen) && p in rest
    ensures p in current &&
      if Lookup(s.identities, p) != Some(current[p]) && Lookup(pending, p) != Some(current[p])
      then Finding(kept, s, current, rest - {p}, pending[p := current[p]], seen + 1)
      else Finding(kept, s, current, rest - {p}, pending, seen)
  {
    CountOne(Discovered(kept, s, current), rest, p);
    AddOneOf(kept, current, Discovered(kept, s, current), rest, p);
  }

  /** The observation stream of one running job, updated in place. */
  class Observer {
    var state: State

    constructor (began: Option<real>)
      ensures state == Fresh(began)
    {
      state := Fresh(began);
    }

    /** Births become obligations; one that takes over an owed pid loses the older one. */
    static method Enter(pending: map<Pid, Start>, births: map<Pid, Start>)
      returns (entered: map<Pid, Start>, failed: nat, seen: nat)
      ensures entered == pending + births
      ensures failed == |Overwritten(pending, births)| && seen == |Arrivals(pending, births)|
    {
      entered, failed, seen := pending, 0, 0;
      var rest := births;
      while rest != map[]
        invariant entered + rest == pending + births
        invariant failed + |Overwritten(entered, rest)| == |Overwritten(pending, births)|
        invariant seen + |Arrivals(entered, rest)| == |Arrivals(pending, births)|
        decreases |rest|
      {
        var p := Take(rest.Keys);
        EnterOne(entered, rest, p);
        if Arrives(entered, p, rest[p]) {
          if p in entered {
            failed := failed + 1;
          }
          entered := entered[p := rest[p]];
          seen := seen + 1;
        }
        rest := rest - {p};
      }
    }

    /** Settled and lost obligations leave. */
    static method Leave(entered: map<Pid, Start>, s: Sample, current: map<Pid, Start>)
      returns (kept: map<Pid, Start>, failed: nat, resolved: nat)
      ensures kept == entered - (Settled(entered, s) + Lost(entered, s, current))
      ensures failed == |Lost(entered, s, current)| && resolved == |Settled(entered, s)|
    {
      kept, failed, resolved := entered, 0, 0;
      var rest := entered.Keys;
      NothingLeft(entered, s, current);
      while rest != {}
        invariant Leaving(entered, s, current, rest, kept, failed, resolved)
        decreases |rest|
      {
        var p := Take(rest);
        LeavingNext(entered, s, current, rest, kept, failed, resolved, p);
        if Settles(s, p, entered[p]) {
          kept := kept - {p};
          resolved := resolved + 1;
        } else if Lookup(current, p) != Some(entered[p]) {
          kept := kept - {p};
          failed := failed + 1;
        }
        rest := rest - {p};
      }
      AllDone(Settled(entered, s) + Lost(entered, s, current), rest);
      AllDone(Lost(entered, s, current), rest);
      AllDone(Settled(entered, s), rest);
    }

    /** Live processes the sample missed become obligations. */
    static method Discover(kept: map<Pid, Start>, s: Sample, current: map<Pid, Start>)
      returns (pending: map<Pid, Start>, seen: nat)
      ensures pending == kept + Only(current, Discovered(kept, s, current))
      ensures seen == |Discovered(kept, s, current)|
    {
      pending, seen := kept, 0;
      var rest := current.Keys;
      NothingFound(kept, s, current);
      while rest != {}
        invariant Finding(kept, s, current, rest, pending, seen)
        decreases |rest|
      {
        var p := Take(rest);
        FindingNext(kept, s, current, rest, pending, seen, p);
        if Lookup(s.identities, p) != Some(current[p]) && Lookup(pending, p) != Some(current[p]) {
          pending := pending[p := current[p]];
          seen := seen + 1;
        }
        rest := rest - {p};
      }
      AllDone(Discovered(kept, s, current), rest);
    }

    static method Settle(pending: map<Pid, Start>, s: Sample, current: map<Pid, Start>) returns (l: Ledger)
      ensures l == Settlement(pending, s, current)
    {
      var entered, overwritten, arrived := Enter(pending, s.births);
      var kept, lost, resolved := Leave(entered, s, current);
      var left, discovered := Discover(kept, s, current);
      l := Ledger(entered, kept, left, overwritten + lost, arrived + discovered, resolved);
    }

    method Reconcile(s: Sample, current: map<Pid, Start>) returns (certifies: bool)
      modifies this
      ensures state == Reconciled(old(state), s, current)
      ensures certifies <==> !Stale(old(state), s) && state.pending == map[] && s.complete
                             && Settlement(old(state).pending, s, current).failed == 0
    {
      if Stale(state, s) {
        return false;
      }
      var l := Settle(state.pending, s, current);
      var effective := Effective(s, l.failed);
      state := Owing(state, l);
      state := Accumulated(state, effective);
      state := Sealed(state);
      certifies := effective.complete && l.pending == map[];
    }
  }

  /** A terminal interval without a fresh observation cannot certify a low peak. */
  predicate CompleteAt(st: State, now: real) {
    st.complete && st.pending == map[] && st.last.Some? && 0.0 <= now - st.last.value <= 5.0
  }

  // -------------------------------------------------------------- whole histories

  lemma SealedFields(st: State)
    ensures Sealed(st).complete <==> st.complete && st.pending == map[]
    ensures Sealed(st) == st.(complete := Sealed(st).complete)
  {
  }

  /** What taking one sample into account changes, field by field. */
  lemma ReconciledFields(st: State, s: Sample, current: map<Pid, Start>)
    requires !Stale(st, s)
    ensures var next := Reconciled(st, s, current);
            var l := Settlement(st.pending, s, current);
            var counted := Effective(s, l.failed);
      && next.pending == l.pending
      && next.pendingSeen == st.pendingSeen + l.seen && next.pendingResolved == st.pendingResolved + l.resolved
      && next.incomplete == (st.incomplete || Poisons(st, counted))
      && next.samples == st.samples + (if counted.complete then 1 else 0)
      && next.reasons.refresh == st.reasons.refresh + counted.reasons.refresh
      && (next.complete <==> next.samples >= 2 && !next.incomplete && next.pending == map[])
  {
    var l := Settlement(st.pending, s, current);
    SealedFields(Accumulated(Owing(st, l), Effective(s, l.failed)));
  }

  /** One observation of a running job: a probe and the members the registry lists afterwards. */
  datatype Step = Step(sample: Sample, current: map<Pid, Start>)

  function After(began: Option<real>, h: seq<Step>): State {
    if h == [] then Fresh(began)
    else Reconciled(After(began, h[..|h| - 1]), h[|h| - 1].sample, h[|h| - 1].current)
  }

  ghost predicate WellFormedSteps(h: seq<Step>) { forall i :: 0 <= i < |h| ==> WellFormed(h[i].sample) }

  /** The i-th observation was taken into account. */
  predicate Accepted(began: Option<real>, h: seq<Step>, i: nat)
    requires i < |h|
  {
    !Stale(After(began, h[..i]), h[i].sample)
  }

  /** The i-th sample as it counted. */
  function Counted(began: Option<real>, h: seq<Step>, i: nat): Sample
    requires i < |h|
  {
    Effective(h[i].sample, Settlement(After(began, h[..i]).pending, h[i].sample, h[i].current).failed)
  }

  /** Nothing taken into account so far rules out a certificate. */
  predicate Unpoisoned(began: Option<real>, h: seq<Step>) {
    h == [] ||
    var n := |h| - 1;
    && Unpoisoned(began, h[..n])
    && (Accepted(began, h, n) ==> !Poisons(After(began, h[..n]), Counted(began, h, n)))
  }

  lemma {:induction false} UnpoisonedAt(began: Option<real>, h: seq<Step>, i: nat)
    requires Unpoisoned(began, h) && i < |h| && Accepted(began, h, i)
    ensures !Poisons(After(began, h[..i]), Counted(began, h, i))
  {
    if i < |h| - 1 {
      var front := h[..|h| - 1];
      assert front[..i] == h[..i];
      UnpoisonedAt(began, front, i);
    }
  }

  function CompleteSamples(began: Option<real>, h: seq<Step>): nat {
    if h == [] then 0
    else
      var n := |h| - 1;
      CompleteSamples(began, h[..n]) + (if Accepted(began, h, n) && Counted(began, h, n).complete then 1 else 0)
  }

  lemma {:induction false} StateIsExact(began: Option<real>, h: seq<Step>)
    ensures var st := After(began, h);
      && (st.incomplete <==> !Unpoisoned(began, h))
      && st.samples == CompleteSamples(began, h)
      && (st.complete <==> st.samples >= 2 && !st.incomplete && st.pending == map[])
  {
    if h != [] {
      var n := |h| - 1;
      StateIsExact(began, h[..n]);
      if Accepted(began, h, n) {
        ReconciledFields(After(began, h[..n]), h[n].sample, h[n].current);
      }
    }
  }

  /** Once evidence is poisoned no later history certifies again. */
  lemma {:induction false} PoisonIsForever(began: Option<real>, h: seq<Step>, later: seq<Step>, now: real)
    requires After(began, h).incomplete
    ensures After(began, h + later).incomplete && !CompleteAt(After(began, h + later), now)
  {
    StateIsExact(began, h + later);
    if later == [] {
      assert h + later == h;
    } else {
      var n := |later| - 1;
      assert (h + later)[..|h| + n] == h + later[..n];
      PoisonIsForever(began, h, later[..n], now);
    }
  }

  lemma UnionSize(a: set<Pid>, b: set<Pid>, whole: set<Pid>)
    requires a !! b && a + b == whole
    ensures |a| + |b| == |whole|
  {
  }

  lemma ArrivalsSplit(pending: map<Pid, Start>, births: map<Pid, Start>)
    ensures Overwritten(pending, births) + (births.Keys - pending.Keys) == Arrivals(pending, births)
    ensures Overwritten(pending, births) !! births.Keys - pending.Keys
  {
  }

  lemma {:induction false} EnteredSize(pending: map<Pid, Start>, births: map<Pid, Start>)
    ensures |pending + births| + |Overwritten(pending, births)| == |pending| + |Arrivals(pending, births)|
  {
    var added := births.Keys - pending.Keys;
    ArrivalsSplit(pending, births);
    UnionSize(Overwritten(pending, births), added, Arrivals(pending, births));
    UnionSize(pending.Keys, added, (pending + births).Keys);
  }

  lemma LeavingSplit(entered: map<Pid, Start>, s: Sample, current: map<Pid, Start>)
    ensures Settled(entered, s) !! Lost(entered, s, current)
    ensures Settled(entered, s) + Lost(entered, s, current) <= entered.Keys
  {
  }

  lemma KeptSize(entered: map<Pid, Start>, s: Sample, current: map<Pid, Start>)
    ensures |entered - (Settled(entered, s) + Lost(entered, s, current))|
            + |Settled(entered, s)| + |Lost(entered, s, current)| == |entered|
  {
    var gone := Settled(entered, s) + Lost(entered, s, current);
    LeavingSplit(entered, s, current);
    UnionSize(Settled(entered, s), Lost(entered, s, current), gone);
    UnionSize((entered - gone).Keys, gone, entered.Keys);
  }

  /** What is kept is live, so nothing kept is discovered again. */
  lemma DiscoveriesAreNew(entered: map<Pid, Start>, s: Sample, current: map<Pid, Start>)
    ensures var kept := entered - (Settled(entered, s) + Lost(entered, s, current));
      && (forall p :: p in kept ==> Lookup(current, p) == Some(kept[p]))
      && Discovered(kept, s, current) !! kept.Keys
  {
  }

  lemma OnlyKeys(current: map<Pid, Start>, keep: set<Pid>)
    requires keep <= current.Keys
    ensures Only(current, keep).Keys == keep
  {
  }

  lemma {:induction false} DiscoveredSize(entered: map<Pid, Start>, s: Sample, current: map<Pid, Start>)
    ensures var kept := entered - (Settled(entered, s) + Lost(entered, s, current));
            var found := Discovered(kept, s, current);
      |kept + Only(current, found)| == |kept| + |found|
  {
    var kept := entered - (Settled(entered, s) + Lost(entered, s, current));
    var found := Discovered(kept, s, current);
    DiscoveriesAreNew(entered, s, current);
    OnlyKeys(current, found);
    UnionSize(kept.Keys, found, (kept + Only(current, found)).Keys);
  }

  /** One settlement neither creates nor forgets an obligation. */
  lemma {:induction false} SettlementConserves(pending: map<Pid, Start>, s: Sample, current: map<Pid, Start>)
    ensures var l := Settlement(pending, s, current);
      |pending| + l.seen == l.resolved + l.failed + |l.pending|
  {
    EnteredSize(pending, s.births);
    KeptSize(pending + s.births, s, current);
    DiscoveredSize(pending + s.births, s, current);
  }

  /** Obligation conservation: over every history, including pid reuse and stale samples,
      obligations seen are exactly those resolved, those failed and those still open. */
  lemma {:induction false} ObligationsAreConserved(began: Option<real>, h: seq<Step>)
    requires WellFormedSteps(h)
    ensures var st := After(began, h);
      st.pendingSeen == st.pendingResolved + st.reasons.refresh + |st.pending|
  {
    if h != [] {
      var n := |h| - 1;
      var st := After(began, h[..n]);
      assert forall i :: 0 <= i < n ==> h[..n][i] == h[i];
      ObligationsAreConserved(began, h[..n]);
      if Accepted(began, h, n) {
        SettlementConserves(st.pending, h[n].sample, h[n].current);
        ReconciledFields(st, h[n].sample, h[n].current);
      }
    }
  }

  /** What a step reports about a process: it was born, or is listed, under this identity. */
  predicate Reported(step: Step, p: Pid, start: Start) {
    Lookup(step.sample.births, p) == Some(start) || Lookup(step.current, p) == Some(start)
  }

  /** A process reported at step i is measured by a paired read at that step or later. */
  ghost predicate CoveredFrom(began: Option<real>, h: seq<Step>, i: nat, p: Pid, start: Start) {
    exists j :: i <= j < |h| && Accepted(began, h, j) && Paired(h[j].sample, p, start)
  }

  /** When nothing is lost, whoever is owed or reported and not measured stays owed. */
  lemma OwedStaysOwed(pending: map<Pid, Start>, s: Sample, current: map<Pid, Start>, p: Pid, start: Start)
    requires Settlement(pending, s, current).failed == 0
    requires Lookup(s.identities, p) != Some(start)
    requires Lookup(pending, p) == Some(start) || Lookup(s.births, p) == Some(start)
      || Lookup(current, p) == Some(start)
    ensures Lookup(Settlement(pending, s, current).pending, p) == Some(start)
  {
    var entered := pending + s.births;
    var kept := entered - (Settled(entered, s) + Lost(entered, s, current));
    assert p !in Overwritten(pending, s.births) && p !in Lost(entered, s, current);
    DiscoveriesAreNew(entered, s, current);
    if Lookup(entered, p) == Some(start) {
      assert !Settles(s, p, start) && Lookup(kept, p) == Some(start);
      assert p !in Discovered(kept, s, current);
    } else {
      assert Lookup(current, p) == Some(start);
      assert Lookup(kept, p) != Some(start) ==> p in Discovered(kept, s, current);
    }
  }

  /** In one accepted step, a report or an open obligation is measured, stays owed, or poisons. */
  lemma StepAccounts(st: State, step: Step, p: Pid, start: Start)
    requires WellFormed(step.sample) && !Stale(st, step.sample)
    requires Reported(step, p, start) || Lookup(st.pending, p) == Some(start)
    ensures var next := Reconciled(st, step.sample, step.current);
      next.incomplete || Lookup(next.pending, p) == Some(start) || Paired(step.sample, p, start)
  {
    var s := step.sample;
    var failed := Settlement(st.pending, s, step.current).failed;
    ReconciledFields(st, s, step.current);
    if failed == 0 && Lookup(s.identities, p) != Some(start) {
      OwedStaysOwed(st.pending, s, step.current, p, start);
    } else if failed == 0 {
      assert p in s.identities.Keys;
      assert !s.complete && !BirthOnly(s) ==> Poisons(st, Effective(s, failed));
    } else {
      assert Poisons(st, Effective(s, failed));
    }
  }

  lemma CoverageExtends(began: Option<real>, h: seq<Step>, i: nat, p: Pid, start: Start)
    requires h != [] && CoveredFrom(began, h[..|h| - 1], i, p, start)
    ensures CoveredFrom(began, h, i, p, start)
  {
    var front := h[..|h| - 1];
    var j: nat :| i <= j < |front| && Accepted(began, front, j) && Paired(front[j].sample, p, start);
    assert front[..j] == h[..j];
    assert Accepted(began, h, j) && Paired(h[j].sample, p, start);
  }

  /** The identity is measured, still owed, or the observation is spoiled. */
  ghost predicate Accounted(began: Option<real>, h: seq<Step>, i: nat, p: Pid, start: Start) {
    var st := After(began, h);
    st.incomplete || Lookup(st.pending, p) == Some(start) || CoveredFrom(began, h, i, p, start)
  }

  lemma EarlierStep(began: Option<real>, h: seq<Step>, i: nat)
    requires WellFormedSteps(h) && i < |h| - 1 && Accepted(began, h, i)
    ensures WellFormedSteps(h[..|h| - 1]) && h[..|h| - 1][i] == h[i] && Accepted(began, h[..|h| - 1], i)
  {
    var front := h[..|h| - 1];
    assert forall k :: 0 <= k < |front| ==> front[k] == h[k];
    assert front[..i] == h[..i];
  }

  lemma LastStepAccounts(began: Option<real>, h: seq<Step>, i: nat, p: Pid, start: Start)
    requires WellFormedSteps(h) && i < |h| && Accepted(began, h, |h| - 1)
    requires var st := After(began, h[..|h| - 1]);
      st.incomplete || Reported(h[|h| - 1], p, start) || Lookup(st.pending, p) == Some(start)
    ensures Accounted(began, h, i, p, start)
  {
    var n := |h| - 1;
    var st := After(began, h[..n]);
    if st.incomplete {
      ReconciledFields(st, h[n].sample, h[n].current);
    } else {
      StepAccounts(st, h[n], p, start);
      if Paired(h[n].sample, p, start) {
        assert CoveredFrom(began, h, i, p, start);
      }
    }
  }

  lemma StaleStepKeeps(began: Option<real>, h: seq<Step>)
    requires h != [] && !Accepted(began, h, |h| - 1)
    ensures After(began, h) == After(began, h[..|h| - 1])
  {
  }

  /** Whoever is reported in an accepted step is accounted for ever after. */
  lemma {:induction false} ReportsAreAccounted(began: Option<real>, h: seq<Step>, i: nat, p: Pid, start: Start)
    requires WellFormedSteps(h) && i < |h| && Accepted(began, h, i) && Reported(h[i], p, start)
    ensures Accounted(began, h, i, p, start)
    decreases |h|
  {
    var n := |h| - 1;
    if i == n {
      LastStepAccounts(began, h, i, p, start);
    } else {
      EarlierStep(began, h, i);
      ReportsAreAccounted(began, h[..n], i, p, start);
      if CoveredFrom(began, h[..n], i, p, start) {
        CoverageExtends(began, h, i, p, start);
      } else if Accepted(began, h, n) {
        LastStepAccounts(began, h, i, p, start);
      } else {
        StaleStepKeeps(began, h);
      }
    }
  }

  lemma {:induction false} UnpoisonedLosesNothing(began: Option<real>, h: seq<Step>)
    requires WellFormedSteps(h) && Unpoisoned(began, h)
    ensures After(began, h).reasons.refresh == 0
  {
    if h != [] {
      var n := |h| - 1;
      assert forall i :: 0 <= i < n ==> h[..n][i] == h[i];
      UnpoisonedLosesNothing(began, h[..n]);
      if Accepted(began, h, n) {
        ReconciledFields(After(began, h[..n]), h[n].sample, h[n].current);
      }
    }
  }

  /** Certificate soundness. If a history certifies a peak at `now`, at least two complete
      samples were counted, nothing poisoned it (see UnpoisonedAt), no obligation was lost
      or left open, and every identity ever reported was covered by a paired read at its
      report or afterwards. */
  lemma CertificateSound(began: Option<real>, h: seq<Step>, now: real)
    requires WellFormedSteps(h) && CompleteAt(After(began, h), now)
    ensures CompleteSamples(began, h) >= 2 && Unpoisoned(began, h)
    ensures After(began, h).pendingSeen == After(began, h).pendingResolved
    ensures forall i, p, start :: 0 <= i < |h| && Accepted(began, h, i) && Reported(h[i], p, start)
              ==> CoveredFrom(began, h, i, p, start)
  {
    StateIsExact(began, h);
    ObligationsAreConserved(began, h);
    UnpoisonedLosesNothing(began, h);
    forall i, p, start | 0 <= i < |h| && Accepted(began, h, i) && Reported(h[i], p, start)
      ensures CoveredFrom(began, h, i, p, start)
    {
      ReportsAreAccounted(began, h, i, p, start);
    }
  }

  /** In a certified history no two consecutive counted observations are more than five
      seconds apart, and none was incomplete except for processes still being born. */
  lemma CertifiedStepsAreClean(began: Option<real>, h: seq<Step>, now: real, i: nat)
    requires CompleteAt(After(began, h), now) && i < |h| && Accepted(began, h, i)
    ensures h[i].sample.at - After(began, h[..i]).last.GetOr(began.GetOr(h[i].sample.at)) <= 5.0
    ensures var s := h[i].sample; s.complete || (s.births != map[] && s.missing == 0 && s.fault == 0)
    ensures Settlement(After(began, h[..i]).pending, h[i].sample, h[i].current).failed == 0
  {
    StateIsExact(began, h);
    UnpoisonedAt(began, h, i);
    BeganStays(began, h[..i]);
  }

  lemma {:induction false} BeganStays(began: Option<real>, h: seq<Step>)
    ensures After(began, h).began == began
  {
    if h != [] {
      BeganStays(began, h[..|h| - 1]);
    }
  }

  /** The certificate is given exactly when it is due: enough complete samples, no poison,
      no open obligation, and a last observation at most five seconds old. */
  lemma CertificateExact(began: Option<real>, h: seq<Step>, now: real)
    ensures CompleteAt(After(began, h), now) <==>
      var st := After(began, h);
      && CompleteSamples(began, h) >= 2 && Unpoisoned(began, h) && st.pending == map[]
      && st.last.Some? && 0.0 <= now - st.last.value <= 5.0
  {
    StateIsExact(began, h);
  }
}
