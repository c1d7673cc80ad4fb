/** Evidence that a run's measured peak may lower a later estimate
    (libexec/job_observation.py): paired samples, obligations and the certificate. */
module Observation {
  import opened Common
  import Jobs
  import Ownership

  datatype Reasons = Reasons(anchor: nat, members: nat, usage: nat, identity: nat, refresh: nat, gap: nat, fault: nat)

  const NO_REASONS := Reasons(0, 0, 0, 0, 0, 0, 0)

  function Plus(a: Reasons, b: Reasons): Reasons {
    Reasons(a.anchor + b.anchor, a.members + b.members, a.usage + b.usage, a.identity + b.identity,
            a.refresh + b.refresh, a.gap + b.gap, a.fault + b.fault)
  }

  /** One probe of a job's processes. `usage` holds a kernel identity for every process
      whose two reads agree. */
  datatype Sample = Sample(
    complete: bool,
    at: real,
    peakKb: int,
    identities: map<Pid, Start>,
    footprints: map<Pid, int>,
    usage: map<Pid, int>,
    births: map<Pid, Start>,
    missing: nat,
    fault: nat,
    reasons: Reasons)

  /** One usage read of one process. */
  datatype Read = NoRead | Read(identity: int, kb: int) | Raised

  // ------------------------------------------------------------ one paired probe

  /** What a probe could see: two process tables around two reads of every process. */
  datatype Probe = Probe(
    scope: Ownership.Scope,
    prior: map<Pid, int>,
    uid: int,
    before: Option<Ownership.Table>,
    first: map<Pid, Read>,
    after: Option<Ownership.Table>,
    second: map<Pid, Read>)

  function ReadOf(results: map<Pid, Read>, p: Pid): Read { Lookup(results, p).GetOr(NoRead) }

  /** The evidence about one process: its earlier paired identity and the two reads. */
  datatype Pair = Pair(prior: Option<int>, first: Read, second: Read)
  {
    /** Two reads by one kernel identity, which also matches any earlier paired identity. */
    predicate Agrees() {
      && first.Read? && second.Read? && first.identity == second.identity && first.identity > 0
      && (prior.None? || prior.value == first.identity)
      && first.kb >= 0 && second.kb >= 0
    }

    /** An unpaired read that an earlier paired identity authenticates: upward evidence only. */
    predicate Vouched() {
      !Agrees() && first.Read? && first.identity > 0 && prior == Some(first.identity) && first.kb >= 0
    }

    function Evidence(): int
      requires Agrees() || Vouched()
    {
      if Agrees() then Max(first.kb, second.kb) else first.kb
    }
  }

  /** The second read happens only while the process is still the one read first. */
  function Pairs(pr: Probe, before: map<Pid, Start>, after: map<Pid, Start>): map<Pid, Pair> {
    map p | p in before ::
      Pair(Lookup(pr.prior, p), ReadOf(pr.first, p),
           if Lookup(after, p) == Some(before[p]) then ReadOf(pr.second, p) else NoRead)
  }

  function Usage(pairs: map<Pid, Pair>, pids: set<Pid>): map<Pid, int> {
    map p | p in pids && p in pairs && pairs[p].Agrees() :: pairs[p].first.identity
  }

  function Footprints(pairs: map<Pid, Pair>, pids: set<Pid>): map<Pid, int> {
    map p | p in pids && p in pairs && (pairs[p].Agrees() || pairs[p].Vouched()) :: pairs[p].Evidence()
  }

  predicate Paired(s: Sample, p: Pid, start: Start) { Lookup(s.identities, p) == Some(start) && p in s.usage }

  /** Only processes born after the first table were left unread. */
  predicate BirthOnly(s: Sample) { s.births != map[] && s.missing == 0 && s.fault == 0 }

  /** What every probe guarantees about its own record. */
  predicate WellFormed(s: Sample) {
    && (s.complete || BirthOnly(s) ==> s.identities.Keys == s.usage.Keys)
    && s.usage.Keys <= s.footprints.Keys
    && s.reasons.refresh == 0
  }

  /** A probe that raised: no certificate and no peak, whatever was read before. */
  predicate Faulted(s: Sample) { !s.complete && s.fault == 1 && s.births == map[] && s.peakKb == 0 }

  /** Additions between the tables, provided nothing measured has vanished meanwhile. */
  function Born(before: map<Pid, Start>, after: map<Pid, Start>): map<Pid, Start> {
    if forall p :: p in before ==> Lookup(after, p) == Some(before[p]) then after - before.Keys else map[]
  }

  /** A probe whose reads all returned, between two tables in which it owned `before` and `after`. */
  ghost predicate PairedReads(s: Sample, pr: Probe, before: map<Pid, Start>, after: map<Pid, Start>) {
    var pairs := Pairs(pr, before, after);
    && s.fault == 0 && s.identities == before
    && s.usage == Usage(pairs, before.Keys)
    && s.footprints == Footprints(pairs, before.Keys)
    && s.missing == |before.Keys - s.usage.Keys|
    && s.peakKb == Sum(s.footprints.Keys, Jobs.At(s.footprints))
    && (s.complete <==> before == after && s.usage.Keys == before.Keys)
    && s.births == if s.usage.Keys == before.Keys then Born(before, after) else map[]
  }

  /** The second pass has dealt with the processes in `done`. */
  predicate PairedUp(pairs: map<Pid, Pair>, done: set<Pid>, usage: map<Pid, int>, footprints: map<Pid, int>,
                     missing: nat) {
    && usage == Usage(pairs, done) && footprints == Footprints(pairs, done)
    && missing == |done - usage.Keys|
  }

  lemma UsageStep(pairs: map<Pid, Pair>, done: set<Pid>, p: Pid)
    requires p in pairs && p !in done
    ensures Usage(pairs, done + {p})
         == if pairs[p].Agrees() then Usage(pairs, done)[p := pairs[p].first.identity] else Usage(pairs, done)
  {
  }

  lemma FootprintsStep(pairs: map<Pid, Pair>, done: set<Pid>, p: Pid)
    requires p in pairs && p !in done
    ensures Footprints(pairs, done + {p})
         == if pairs[p].Agrees() || pairs[p].Vouched()
            then Footprints(pairs, done)[p := pairs[p].Evidence()] else Footprints(pairs, done)
  {
  }

  lemma MissingStep(done: set<Pid>, read: set<Pid>, p: Pid)
    requires p !in done && p !in read
    ensures |done + {p} - (read + {p})| == |done - read|
    ensures |done + {p} - read| == |done - read| + 1
  {
    assert done + {p} - (read + {p}) == done - read;
    assert done + {p} - read == (done - read) + {p};
  }

  lemma {:induction false} PairedUpNext(pairs: map<Pid, Pair>, done: set<Pid>, usage: map<Pid, int>,
                                        footprints: map<Pid, int>, missing: nat, p: Pid)
    requires PairedUp(pairs, done, usage, footprints, missing) && p in pairs && p !in done
    ensures pairs[p].Agrees() ==>
      PairedUp(pairs, done + {p}, usage[p := pairs[p].first.identity], footprints[p := pairs[p].Evidence()], missing)
    ensures !pairs[p].Agrees() && pairs[p].Vouched() ==>
      PairedUp(pairs, done + {p}, usage, footprints[p := pairs[p].Evidence()], missing + 1)
    ensures !pairs[p].Agrees() && !pairs[p].Vouched() ==> PairedUp(pairs, done + {p}, usage, footprints, missing + 1)
  {
    UsageStep(pairs, done, p);
    FootprintsStep(pairs, done, p);
    MissingStep(done, usage.Keys, p);
    KeysMore(usage, p, pairs[p].first);
  }

  lemma KeysMore(usage: map<Pid, int>, p: Pid, read: Read)
    ensures read.Read? ==> usage[p := read.identity].Keys == usage.Keys + {p}
  {
  }

  lemma TakeOne(all: set<Pid>, rest: set<Pid>, p: Pid)
    requires rest <= all && p in rest
    ensures all - (rest - {p}) == (all - rest) + {p}
  {
  }

  /** One of the second reads that are made raises. */
  ghost predicate SomeSecondRaised(pairs: map<Pid, Pair>) { exists p :: p in pairs && pairs[p].second == Raised }

  /** Each missing pair is put down to a read that failed or to an identity that changed. */
  predicate Tallied(reasons: Reasons, missing: nat) {
    reasons == NO_REASONS.(usage := reasons.usage, identity := reasons.identity)
        && reasons.usage + reasons.identity == missing
  }

  /** The second pass over the processes read first, in any order. */
  method PairUp(pairs: map<Pid, Pair>)
    returns (raised: bool, usage: map<Pid, int>, footprints: map<Pid, int>, missing: nat, reasons: Reasons)
    ensures raised <==> SomeSecondRaised(pairs)
    ensures usage.Keys <= footprints.Keys && reasons.refresh == 0
    ensures !raised ==> PairedUp(pairs, pairs.Keys, usage, footprints, missing) && Tallied(reasons, missing)
  {
    raised, usage, footprints, missing, reasons := false, map[], map[], 0, NO_REASONS;
    var rest := pairs.Keys;
    assert pairs.Keys - rest == {};
    while rest != {}
      invariant rest <= pairs.Keys && PairedUp(pairs, pairs.Keys - rest, usage, footprints, missing)
      invariant Tallied(reasons, missing)
      invariant forall p :: p in pairs && p !in rest ==> pairs[p].second != Raised
      decreases |rest|
    {
      var p := Take(rest);
      var pair := pairs[p];
      if pair.second == Raised {
        raised := true;
        return;
      }
      PairedUpNext(pairs, pairs.Keys - rest, usage, footprints, missing, p);
      TakeOne(pairs.Keys, rest, p);
      if pair.Agrees() {
        usage := usage[p := pair.first.identity];
        footprints := footprints[p := pair.Evidence()];
      } else {
        missing := missing + 1;
        reasons := if !pair.first.Read? || !pair.second.Read? then reasons.(usage := reasons.usage + 1)
                   else reasons.(identity := reasons.identity + 1);
        if pair.Vouched() {
          footprints := footprints[p := pair.Evidence()];
        }
      }
      rest := rest - {p};
    }
    assert pairs.Keys - rest == pairs.Keys;
  }

  lemma NoneMissing(all: set<Pid>, read: set<Pid>)
    requires read <= all
    ensures |all - read| == 0 <==> read == all
  {
    assert all == (all - read) + read;
  }

  /** The record of a probe whose reads have all returned. */
  method Summarize(pr: Probe, before: map<Pid, Start>, after: map<Pid, Start>,
                   usage: map<Pid, int>, footprints: map<Pid, int>, missing: nat, reasons: Reasons, at: real)
    returns (s: Sample)
    requires usage == Usage(Pairs(pr, before, after), before.Keys)
    requires footprints == Footprints(Pairs(pr, before, after), before.Keys)
    requires missing == |before.Keys - usage.Keys| && reasons.refresh == 0
    ensures s.at == at && WellFormed(s) && PairedReads(s, pr, before, after)
  {
    NoneMissing(before.Keys, usage.Keys);
    var peak := Jobs.Measure(footprints, footprints.Keys);
    var births := if missing == 0 then Born(before, after) else map[];
    s := Sample(before == after && missing == 0, at, peak, before, footprints, usage, births, missing, 0, reasons);
  }

  /** The second half of a probe, once both tables and the first reads are there. */
  method ReadAgain(pr: Probe, before: map<Pid, Start>, after: map<Pid, Start>, at: real) returns (s: Sample)
    ensures s.at == at && WellFormed(s)
    ensures SomeSecondRaised(Pairs(pr, before, after)) ==> Faulted(s)
    ensures !SomeSecondRaised(Pairs(pr, before, after)) ==> PairedReads(s, pr, before, after)
  {
    var pairs := Pairs(pr, before, after);
    assert pairs.Keys == before.Keys;
    var raised, usage, footprints, missing, reasons := PairUp(pairs);
    reasons := reasons.(members := if before == after then 0 else 1);
    if raised {
      return Sample(false, at, 0, before, footprints, usage, map[], missing, 1, reasons.(fault := 1));
    }
    s := Summarize(pr, before, after, usage, footprints, missing, reasons, at);
  }

  function OwnedFirst(pr: Probe): map<Pid, Start>
    requires pr.before.Some?
  {
    Ownership.Starts(pr.before.value, Ownership.Owned(pr.scope, pr.before.value, pr.uid))
  }

  function OwnedThen(pr: Probe): map<Pid, Start>
    requires pr.before.Some? && pr.after.Some?
  {
    var scope := pr.scope.(footprint := OwnedFirst(pr));
    Ownership.Starts(pr.after.value, Ownership.Owned(scope, pr.after.value, pr.uid))
  }

  /** The second table is missing, or a read that is made raises. */
  ghost predicate RaisesLater(pr: Probe, before: map<Pid, Start>)
    requires pr.before.Some? && before == OwnedFirst(pr)
  {
    || pr.after.None?
    || (exists p :: p in before && ReadOf(pr.first, p) == Raised)
    || SomeSecondRaised(Pairs(pr, before, OwnedThen(pr)))
  }

  /** A table is missing that is looked at, or a read that is made raises. */
  ghost predicate Raises(pr: Probe) {
    pr.before.None? || (OwnedFirst(pr) != map[] && RaisesLater(pr, OwnedFirst(pr)))
  }

  /** A probe that finds someone to read. */
  method ReadAll(pr: Probe, before: map<Pid, Start>, at: real) returns (s: Sample)
    requires pr.before.Some? && before == OwnedFirst(pr)
    ensures s.at == at && WellFormed(s)
    ensures RaisesLater(pr, before) ==> Faulted(s)
    ensures !RaisesLater(pr, before) ==> PairedReads(s, pr, before, OwnedThen(pr))
  {
    if pr.after.None? || exists p :: p in before && ReadOf(pr.first, p) == Raised {
      return Sample(false, at, 0, map[], map[], map[], map[], 0, 1, NO_REASONS.(fault := 1));
    }
    var after := Ownership.Members(pr.scope.(footprint := before), pr.after.value, pr.uid);
    s := ReadAgain(pr, before, after, at);
  }

  /** One probe. It certifies completeness only when both tables agree and every owned
      process was read twice under one kernel identity. */
  method SampleJob(pr: Probe, at: real) returns (s: Sample)
    ensures s.at == at && WellFormed(s)
    ensures s.fault == (if Raises(pr) then 1 else 0)
    ensures Raises(pr) ==> !s.complete && s.births == map[] && s.peakKb == 0
    ensures !Raises(pr) && OwnedFirst(pr) == map[] ==>
      s == Sample(false, at, 0, map[], map[], map[], map[], 0, 0, Reasons(1, 0, 0, 0, 0, 0, 0))
    ensures !Raises(pr) && OwnedFirst(pr) != map[] ==> PairedReads(s, pr, OwnedFirst(pr), OwnedThen(pr))
  {
    if pr.before.None? {
      return Sample(false, at, 0, map[], map[], map[], map[], 0, 1, NO_REASONS.(fault := 1));
    }
    var before := Ownership.Members(pr.scope, pr.before.value, pr.uid);
    if before == map[] {
      return Sample(false, at, 0, map[], map[], map[], map[], 0, 0, NO_REASONS.(anchor := 1));
    }
    s := ReadAll(pr, before, at);
  }
}
