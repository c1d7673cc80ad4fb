/** What a finished run teaches (the supervision loop of libexec/scheduler.py): the observation
    certificate decides whether its peak may lower the estimate of the next one. */
module Learning {
  import opened Common
  import opened Observation
  import opened Certificate
  import opened WorkloadEstimates

  /** A probe that found nothing because the whole group had just finished. It is dropped. */
  predicate TerminalEmpty(s: Sample, exited: bool, current: map<Pid, Start>) {
    exited && current == map[] && s.identities == map[] && s.fault == 0
  }

  /** The largest total any probe measured, whether or not it counted. */
  function Peak(h: seq<Step>): (kb: nat)
    ensures forall i :: 0 <= i < |h| ==> h[i].sample.peakKb <= kb
  {
    if h == [] then 0
    else
      var front := h[..|h| - 1];
      assert forall i :: 0 <= i < |front| ==> front[i] == h[i];
      Max(Peak(front), h[|h| - 1].sample.peakKb)
  }

  /** The run as it is recorded when its last process is gone: complete if it succeeded, its
      observation is certified at that moment, and all its work could be attributed. Its peak
      is the largest total of any probe, or of any host sample if one was larger. */
  function Completion(began: Option<real>, h: seq<Step>, host: nat, now: real, succeeded: bool, attributed: bool): Run {
    Run(Max(Peak(h), host), succeeded && attributed && CompleteAt(After(began, h), now))
  }

  /** An estimate falls only on certified evidence. If recording a run lowers any row's
      estimate, the run succeeded and its observation was certified: two complete samples, no
      gap or unexplained loss, and a paired read for every process ever reported. The estimate
      fell by at most a tenth and still covers five quarters of everything that any probe or
      host sample measured. */
  lemma LoweredOnlyByCertificate(row: Row, began: Option<real>, h: seq<Step>, host: nat, now: real,
                                 succeeded: bool, attributed: bool)
    requires WellFormedSteps(h)
    requires Current(Record(row, Completion(began, h, host, now, succeeded, attributed))) < Current(row)
    ensures succeeded && attributed && CompleteSamples(began, h) >= 2 && Unpoisoned(began, h)
    ensures forall i, p, start :: 0 <= i < |h| && Accepted(began, h, i) && Reported(h[i], p, start)
              ==> CoveredFrom(began, h, i, p, start)
    ensures var after := Current(Record(row, Completion(began, h, host, now, succeeded, attributed)));
      && 10 * after >= 9 * Current(row) && after >= Padded(host)
      && forall i :: 0 <= i < |h| ==> after >= Padded(Max(0, h[i].sample.peakKb))
  {
    OneRun(row, Completion(began, h, host, now, succeeded, attributed));
    CertificateSound(began, h, now);
  }

  /** Dropping the empty probe matters: taken into account, it would spoil the certificate
      for good, whatever was observed before and after. */
  lemma EmptyProbeWouldSpoil(began: Option<real>, h: seq<Step>, s: Sample, later: seq<Step>, now: real)
    requires TerminalEmpty(s, true, map[]) && !s.complete && s.births == map[] && !Stale(After(began, h), s)
    ensures !CompleteAt(After(began, h + [Step(s, map[])] + later), now)
  {
    var all := h + [Step(s, map[])];
    assert all[..|all| - 1] == h;
    var l := Settlement(After(began, h).pending, s, map[]);
    ReconciledFields(After(began, h), s, map[]);
    assert Poisons(After(began, h), Effective(s, l.failed));
    PoisonIsForever(began, all, later, now);
  }
}
