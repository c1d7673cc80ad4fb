/** What one probe says of each process, read by read (sample_job in libexec/job_observation.py). */
module Probes {
  import opened Common
  import opened Observation
  import Jobs

  /** The process is still the one that was read first. */
  predicate Remains(before: map<Pid, Start>, after: map<Pid, Start>, p: Pid) {
    p in before && p in after && after[p] == before[p]
  }

  predicate Got(results: map<Pid, Read>, p: Pid, identity: int, kb: int) {
    p in results && results[p] == Read(identity, kb)
  }

  /** Both reads found the process under one positive kernel identity, not contradicted by an
      earlier one, and measured something. */
  predicate ReadTwice(pr: Probe, before: map<Pid, Start>, after: map<Pid, Start>, p: Pid, identity: int,
                      one: int, two: int) {
    && Remains(before, after, p) && Got(pr.first, p, identity, one) && Got(pr.second, p, identity, two)
    && identity >= 1 && one >= 0 && two >= 0 && (p in pr.prior ==> pr.prior[p] == identity)
  }

  ghost predicate HasBoth(pr: Probe, before: map<Pid, Start>, after: map<Pid, Start>, p: Pid) {
    exists identity, one, two :: ReadTwice(pr, before, after, p, identity, one, two)
  }

  /** Only the first read counts, and an earlier identity vouches for it. */
  ghost predicate ReadOnce(pr: Probe, before: map<Pid, Start>, after: map<Pid, Start>, p: Pid, one: int) {
    && p in before && p in pr.prior && pr.prior[p] >= 1 && one >= 0 && Got(pr.first, p, pr.prior[p], one)
    && !HasBoth(pr, before, after, p)
  }

  lemma UsageExactly(pr: Probe, before: map<Pid, Start>, after: map<Pid, Start>, p: Pid, identity: int)
    ensures var usage := Usage(Pairs(pr, before, after), before.Keys);
      p in usage && usage[p] == identity <==> exists one, two :: ReadTwice(pr, before, after, p, identity, one, two)
  {
    var pairs := Pairs(pr, before, after);
    if p in pairs && pairs[p].Agrees() {
      assert ReadTwice(pr, before, after, p, pairs[p].first.identity, pairs[p].first.kb, pairs[p].second.kb);
    }
    if one, two :| ReadTwice(pr, before, after, p, identity, one, two) {
      assert pairs[p] == Pair(Lookup(pr.prior, p), Read(identity, one), Read(identity, two));
    }
  }

  lemma HasBothExactly(pr: Probe, before: map<Pid, Start>, after: map<Pid, Start>, p: Pid)
    ensures HasBoth(pr, before, after, p) <==> p in Pairs(pr, before, after) && Pairs(pr, before, after)[p].Agrees()
  {
    var pairs := Pairs(pr, before, after);
    if p in pairs && pairs[p].Agrees() {
      assert ReadTwice(pr, before, after, p, pairs[p].first.identity, pairs[p].first.kb, pairs[p].second.kb);
    }
    if identity, one, two :| ReadTwice(pr, before, after, p, identity, one, two) {
      assert pairs[p] == Pair(Lookup(pr.prior, p), Read(identity, one), Read(identity, two));
    }
  }

  /** What is on record of a process: the larger of two paired reads, one vouched read, or nothing. */
  lemma FootprintExactly(pr: Probe, before: map<Pid, Start>, after: map<Pid, Start>, p: Pid, kb: int)
    ensures var found := Footprints(Pairs(pr, before, after), before.Keys);
      p in found && found[p] == kb <==>
        || (exists identity, one, two :: ReadTwice(pr, before, after, p, identity, one, two) && kb == Max(one, two))
        || ReadOnce(pr, before, after, p, kb)
  {
    var pairs := Pairs(pr, before, after);
    HasBothExactly(pr, before, after, p);
    if p in pairs && pairs[p].Agrees() {
      assert ReadTwice(pr, before, after, p, pairs[p].first.identity, pairs[p].first.kb, pairs[p].second.kb);
    }
    if identity, one, two :| ReadTwice(pr, before, after, p, identity, one, two) && kb == Max(one, two) {
      assert pairs[p] == Pair(Lookup(pr.prior, p), Read(identity, one), Read(identity, two));
    }
  }

  /** Born between the two tables. */
  predicate Newborn(before: map<Pid, Start>, after: map<Pid, Start>, p: Pid, start: Start) {
    p in after && after[p] == start && p !in before
  }

  predicate AllRemain(before: map<Pid, Start>, after: map<Pid, Start>) {
    forall q :: q in before ==> Remains(before, after, q)
  }

  ghost predicate AllHaveBoth(pr: Probe, before: map<Pid, Start>, after: map<Pid, Start>) {
    forall p :: p in before ==> HasBoth(pr, before, after, p)
  }

  lemma FootprintListed(pr: Probe, before: map<Pid, Start>, after: map<Pid, Start>, p: Pid)
    ensures p in Footprints(Pairs(pr, before, after), before.Keys)
      <==> HasBoth(pr, before, after, p) || exists one :: ReadOnce(pr, before, after, p, one)
  {
    var pairs := Pairs(pr, before, after);
    HasBothExactly(pr, before, after, p);
    if p in pairs && pairs[p].Vouched() {
      assert ReadOnce(pr, before, after, p, pairs[p].first.kb);
    }
  }

  lemma Unread(before: map<Pid, Start>, usage: map<Pid, int>)
    requires usage.Keys <= before.Keys
    ensures |before.Keys - usage.Keys| == |before| - |usage|
    ensures |before.Keys - usage.Keys| == 0 <==> usage.Keys == before.Keys
  {
    assert before.Keys == (before.Keys - usage.Keys) + usage.Keys;
    assert |before.Keys| == |before| && |usage.Keys| == |usage|;
  }

  /** Who is on record: those read twice, with what was measured of them and of those vouched for. */
  lemma ListedExactly(s: Sample, pr: Probe, before: map<Pid, Start>, after: map<Pid, Start>)
    requires PairedReads(s, pr, before, after)
    ensures forall p :: p in s.usage <==> HasBoth(pr, before, after, p)
    ensures forall p :: p in s.footprints
              <==> HasBoth(pr, before, after, p) || exists one :: ReadOnce(pr, before, after, p, one)
  {
    forall p ensures p in s.usage <==> HasBoth(pr, before, after, p) {
      HasBothExactly(pr, before, after, p);
    }
    forall p ensures p in s.footprints
      <==> HasBoth(pr, before, after, p) || exists one :: ReadOnce(pr, before, after, p, one)
    {
      FootprintListed(pr, before, after, p);
    }
  }

  lemma BornExactly(before: map<Pid, Start>, after: map<Pid, Start>, p: Pid, start: Start)
    ensures p in Born(before, after) && Born(before, after)[p] == start
      <==> Newborn(before, after, p, start) && AllRemain(before, after)
  {
    assert AllRemain(before, after) <==> forall q :: q in before ==> Lookup(after, q) == Some(before[q]);
  }

  lemma UsageWithin(pairs: map<Pid, Pair>, pids: set<Pid>)
    ensures Usage(pairs, pids).Keys <= pids
  {
  }

  lemma AllOf(usage: map<Pid, int>, before: map<Pid, Start>)
    requires usage.Keys <= before.Keys && forall p :: p in before ==> p in usage
    ensures usage.Keys == before.Keys
  {
    forall p | p in before.Keys ensures p in usage.Keys {
      assert p in before;
    }
  }

  lemma AllReadTwice(s: Sample, pr: Probe, before: map<Pid, Start>, after: map<Pid, Start>)
    requires PairedReads(s, pr, before, after)
    ensures s.usage.Keys <= before.Keys && (s.usage.Keys == before.Keys <==> AllHaveBoth(pr, before, after))
  {
    UsageWithin(Pairs(pr, before, after), before.Keys);
    ListedExactly(s, pr, before, after);
    if AllHaveBoth(pr, before, after) {
      AllOf(s.usage, before);
    }
    if s.usage.Keys == before.Keys {
      forall p | p in before ensures HasBoth(pr, before, after, p) {
        assert p in s.usage.Keys;
      }
    }
  }

  /** The whole record of a probe whose reads all returned. It is complete exactly when the
      processes were the same in both tables and each was read twice; those born in between
      are listed exactly when all others were read twice and none of them is gone. */
  lemma ProbeExactly(s: Sample, pr: Probe, before: map<Pid, Start>, after: map<Pid, Start>, p: Pid, start: Start)
    requires PairedReads(s, pr, before, after)
    ensures s.fault == 0 && s.identities == before && s.missing == |before| - |s.usage|
    ensures s.peakKb == Sum(s.footprints.Keys, Jobs.At(s.footprints))
    ensures s.complete <==> before == after && AllHaveBoth(pr, before, after)
    ensures p in s.births && s.births[p] == start
      <==> Newborn(before, after, p, start) && AllHaveBoth(pr, before, after) && AllRemain(before, after)
  {
    AllReadTwice(s, pr, before, after);
    Unread(before, s.usage);
    BornExactly(before, after, p, start);
  }
}
