# memcap admission queue: a verified model

memcap lets many agent sessions share one machine. Each heavy command runs under its own
supervisor process; all supervisors step one registry file under a lock, decide there whether
a command may start now, and keep evidence about what running commands really use. This
project models that queue, the rules about evidence that may lower an estimate or stop a
process, and the two programs that rewrite user text (a command line, a configuration file),
and proves what they keep.

`dafny verify dfyconfig.toml` checks everything.

| module | models | main results |
|---|---|---|
| Common, Jobs | values, sums over process sets, job records, lanes | |
| Admission, Decisions, Pressure | `libexec/admission.py`, start spacing, paging | no joint over-commit, when each byte counts once, exactly when and why a request is refused, start spacing and cooldowns over runs |
| Reservation, Amounts | the sliding peak window | peak retirement, allowance stability, the amount in figures |
| Passes, Selection, Precedence, Fairness | reservation passes, candidate order, turn history | non-idling selection, who comes first, one registry for all waiters, bounded overtaking |
| WorkloadMembers, Lineage | `libexec/workload_members.py` | every process counts for one running job, that of its nearest known ancestor |
| Registry, Protocol, RegistrySafety | refresh, registration, launch, gate, crash | registry safety over every interleaving, a launch cut short never runs |
| Ownership | attribution closure, descendants | least closure, exact reachability |
| Observation, Probes | paired probes | what a probe says, read by read |
| Certificate, Evidence | reconciliation | certificate soundness, exactness on the record alone, conservation |
| Orphans, OrphanGrace | watchdog leases | authorised exactly after an unbroken grace period |
| IdleCollector, IdleGrace, Phases | idle helper processes, session phases | stopped exactly after a quiet grace period |
| Words, Characters, OnePass | the scanner and the one-pass reader | exactly when the two agree |
| SessionIdentity, BindText, WideSpace | option rewriting | the text edit refines the word edit, and where it misreads |
| Hooks, HookPlaces | hook merge | positions of others kept, each generated hook once and under its matcher, idempotence |
| Transaction, Markdown, Marks | file edits with rollback, managed block | all or nothing, no clobber but for one exact race, idempotence |
| Timeouts, Integration | the timeout ceiling, planning and installing profiles | refusal is exact, a second installation changes nothing |
| WorkloadEstimates, Estimates | learned estimates | slow decay, convergence, one run in figures |
| CompilerProfiles, Predictions, PartialPeaks | predictions for compiler runs | shrinking on evidence, exactly when a partial peak is kept |
| Learning | what a finished run records | an estimate falls only on certified evidence |

Methods stand where the source loops or updates in place; each is proved against a function
or a predicate, and the lemmas are about that function. Where the source iterates over a
dictionary or a set, the model takes the elements in any order (`Common.Take`). Histories and
interleavings are sequences of arbitrary length, and results about them hold for all of them.

Each component comes with a module beside it that says what its functions compute without
calling them: in figures, on times and identities alone, or over whole histories. The lemmas
there are equivalences wherever their names end in `Exactly`.

Conventions. Memory is in whole KiB. Clocks are real numbers. Process ids, start identities,
command lines, session keys and hashes are opaque tokens that are equal only if the things
they name are. Each block under the registry lock is one atomic step, except in `Protocol`,
where its parts are separate steps and a supervisor can be killed between any two of them.

## Model

| member | source | states |
|---|---|---|
| Admission.Advance | libexec/admission.py:13-38 | The controller update, field by field, ends in the state that the rules for stale samples, changed boot ids, faults and paging prescribe. |
| Admission.Decide | libexec/admission.py:41-138 | The one-pass decision allows a request exactly when every gate, slot, budget and headroom condition holds of the whole registry, and otherwise names the first that fails. |
| Admission.VerdictAllowsExactly | libexec/admission.py:41-138 | A decision allows exactly what the order-free admission condition allows. |
| Decisions.AllowedExactly | libexec/admission.py:41-138 | A request is allowed exactly when the sample, the pressure, the numbers, the slots, the budget, in adaptive mode the age of the sample, the cooldown, two seconds of health and since the last start, and the free memory, at most half a GiB of it in adaptive mode, all allow it; each written out. |
| Decisions.ReasonExactly | libexec/admission.py:41-138 | The reason given is the first of those conditions that fails, in the order they are looked at. |
| Decisions.GrantExactly | libexec/admission.py:115-135 | An allowed request is given in full, with a startup credit in adaptive mode alone, and the missing margin is reported once it was looked at. |
| Admission.RemovalRelaxes | libexec/admission.py:78-94 | Taking a job out of the registry raises neither charge nor the slot count. |
| Admission.AllowSurvivesRelaxation | libexec/admission.py:72-135 | An allowed request stays allowed when it asks for less or when a running job leaves. |
| Admission.NoJointOvercommit | libexec/admission.py:72-135 | Any run of admissions decided on one sample keeps the strict charge within the cap and the physical margin in both modes. |
| Admission.NoJointSlotOverrun | libexec/admission.py:72-77 | Such a run never exceeds the finite-job slots. |
| Admission.ChargeCountsEachByteOnce | libexec/admission.py:78-94 | The accounted total never exceeds the whole allowances plus the tracked memory owned by no job, and equals them if and only if no two running jobs claim a tracked process that uses memory. |
| Admission.StrictJobsFitTheCap | libexec/admission.py:78-98 | Whole allowances and unowned tracked memory together fit the strict cap up to what is claimed twice, and entirely if nothing is. |
| Admission.EveryLaunchIsRemembered | libexec/scheduler.py:354-360 | After any run of locked blocks the stored controller remembers each launch, by its start stamp or by a health clock that began no earlier. |
| Admission.StartSpacing | libexec/admission.py:99-114 | An adaptive admission comes at least two seconds after every earlier launch of any supervisor, across crashes and controller resets. |
| Pressure.CooldownExactly | libexec/admission.py:25-37 | Over every run of locked blocks a cooldown is on record exactly until six seconds after the last sample since the boot that was bad or ended ten seconds of paging. |
| Pressure.PagingExactly | libexec/admission.py:29-37 | The paging clock on record began with the stretch of paging samples the last one belongs to; any other sample that is taken into account ends it. |
| Pressure.HealthExactly | libexec/admission.py:22-28 | Health counts since the last bad sample or the first of the boot. |
| Pressure.NoStartWhileCooling | libexec/admission.py:25-37 | No supervisor is admitted in adaptive mode within six seconds of a bad sample, or of one that ends ten seconds of nothing but paging, whatever ran in between. |
| Pressure.NoStartWhileUnsettled | libexec/admission.py:22-28 | Nor within two seconds of a bad sample or of the first of a boot. |
| Pressure.PagingRefusalIsDue | libexec/admission.py:99-108 | A refusal for paging always has such a sample behind it, less than six seconds ago. |
| Reservation.JobRecord.Slide | libexec/scheduler.py:692-712 | One accepted observation restarts, extends or raises the window, trims it, and retires the peak when it spans more than 60 seconds. |
| Reservation.JobRecord.Reservation | libexec/scheduler.py:659-733 | A call leaves the record and returns the amount that the window rules prescribe. |
| Amounts.AmountExactly | libexec/scheduler.py:659-733 | The amount of every call in figures: 5/4 of the ruling peak, rounded down, or of the window's highest point once the chain spans more than a minute; above what is held before the thirtieth second and above half a GiB after; never below what was measured. |
| Amounts.WindowExactly | libexec/scheduler.py:692-708 | The window of every call: at most the last 128 points, exactly those of the last minute, begun anew after more than five seconds. |
| Amounts.RecordExactly | libexec/scheduler.py:667-731 | What else a call leaves: the retired peak carried on as the least that covers it, the measurement and 4/5 of what is held; the observed peak; the chain's beginning; the source code. |
| Reservation.CarryRoundTrip | libexec/scheduler.py:668-676 | Carrying a reservation back to a peak is exact on values a peak produced, never lower, and at most 1 KiB higher. |
| Reservation.ShrinkNeedsClosedChain | libexec/scheduler.py:659-733 | Without a closed chain an allowance falls only before any retirement, on a complete fresh observation, and not below 5/4 of the lifetime peak. |
| Reservation.ClosingCoversWindow | libexec/scheduler.py:707-733 | A closing call covers 5/4 of every point the window still holds, to less than one KiB. |
| Reservation.FixedAndUncertainNeverShrink | libexec/scheduler.py:663-666 | Fixed-size jobs and uncertain orphans keep what they hold and what they requested. |
| Reservation.AllowanceIsStable | libexec/scheduler.py:735-746 | Calling again with the same sample and clocks changes neither the allowance nor the window, at any age of the job. |
| Reservation.AllowanceIsStableLater | libexec/scheduler.py:690-733 | Calling again with the same sample and later clocks changes nothing, lapsed or not, unless the startup burst ends in between; then the allowance falls or is raised to half a GiB. |
| Reservation.ChainIsUnbroken | libexec/scheduler.py:700-707 | The accepted observations since the last break lie within five seconds of the newest before them. |
| Reservation.WindowRemembersChain | libexec/scheduler.py:694-708 | On every history the window stands for each chain point that is neither out of date nor displaced by 128 newer ones. |
| Reservation.ClosingCoversChain | libexec/scheduler.py:694-733 | A closing call covers 5/4 of everything measured in the chain's last 60 seconds, up to that displacement. |
| Reservation.ClosingChainIsLong | libexec/scheduler.py:700-711 | A closing call ends an unbroken chain of observations that spans more than 60 seconds. |
| Reservation.LoweringIsJustified | libexec/scheduler.py:659-733 | After any history a lowered allowance means a closed chain, or that no peak was ever retired and 5/4 of the lifetime peak is still covered. |
| Reservation.RetirementIsPermanent | libexec/scheduler.py:667-711 | Once a peak is retired, it stays so, so that every later lowering needs another chain. |
| Selection.SortIsStable | libexec/scheduler.py:785-826 | Sorting a list that is ordered by one relation leaves that relation as the tie-breaker. |
| Selection.OrderIsPermutation | libexec/scheduler.py:785-826 | The candidates are exactly the waiters, each once, by fair share, then lane, then turn and age. |
| Passes.Pass | libexec/scheduler.py:735-746 | One pass before a decision replaces every running job's allowance by what its reservation call returns, and nothing else. |
| Passes.LookExactly | libexec/scheduler.py:735-746 | A pass goes by the sum of the job's processes in the sample, which it does not use if it failed or misses one, and by its age at this pass. |
| Selection.NextWaiter | libexec/scheduler.py:785-830 | With a reservation pass and clocks of its own before each decision: outside the drain branch nobody is chosen exactly when nobody fits, and otherwise a fitting waiter that precedes all others; in the drain branch the first that may drain. |
| Precedence.ChosenComesFirst | libexec/scheduler.py:785-830 | Outside the drain branch the chosen waiter comes first of all who fit: fewest finite jobs of its session, longest not served, small work first but heavy after three small ones, then longest waiting. |
| Precedence.LongestWaitingFirst | libexec/scheduler.py:786-789 | Within a session and a lane no fitting waiter has waited longer than the chosen one. |
| Precedence.LaneDecides | libexec/scheduler.py:808-811 | With equal shares and turns the lanes decide: small work below three small admissions in a row, heavy work from then on. |
| Precedence.LaneExactly | libexec/scheduler_lanes.py:38-52 | Which work is small, in figures. |
| Precedence.DrainsExactly | libexec/scheduler.py:795-806 | Exactly a heavy waiter of a minute or more that does not fit may hold back others, in strict mode always and otherwise in the first six of every thirty seconds, while a finite job runs. |
| Precedence.DrainComesFirst | libexec/scheduler.py:786-806 | Of several it is the longest unserved and longest waiting. |
| Selection.OneRegistryForAll | libexec/scheduler.py:735-793 | All waiters of one selection are decided alike: each fits exactly when it fits the registry the first pass leaves, unless a running job's startup burst ends between two passes. |
| Fairness.Rotor.RecordTurn | libexec/scheduler.py:832-842 | The session served moves behind every turn, and only live contenders and the 128 most recent sessions stay. |
| Fairness.TurnsExactly | libexec/scheduler.py:832-842 | No other turn changes; a session is forgotten only without a job and for 128 others served no earlier; at most 128 sessions without a job are kept. |
| Fairness.OvertakersAreDistinct | libexec/scheduler.py:832-842 | While a session contends unserved, the sessions served instead are pairwise distinct, whatever pruning does. |
| Fairness.BoundedOvertaking | libexec/scheduler.py:777-842 | With all waiters on the fair rotation and at most 128 sessions, a contending session is overtaken at most once by each other session. |
| Registry.Refresh | libexec/scheduler.py:588-620 | The refresh loop keeps, renews and drops entries as the rule for one entry says, in order, and then attributes every process anew. |
| Registry.RefreshKeepsLive | libexec/scheduler.py:588-614 | A running job with a live process of this user in its group survives every refresh, with or without its supervisor. |
| Registry.RefreshKeepsOnlyLive | libexec/scheduler.py:588-620 | Whatever a refresh keeps was there before and has a live owner or a live group, and the members recorded under a live owner are the group's. |
| Registry.MarksExactly | libexec/scheduler.py:588-614 | A running entry is marked orphaned exactly if its supervisor is gone, recovering exactly if moreover its lease stands, and its members are the live group under a supervisor and otherwise as they were. |
| Registry.StaysExactly | libexec/scheduler.py:588-614 | Every entry stays that has a live supervisor, or runs with a live process of its group. |
| Registry.RefreshLowersCounts | libexec/scheduler.py:588-620 | A refresh raises no count of running jobs and no count of ids. |
| Registry.RefreshedCountsOnce | libexec/scheduler.py:617-620 | Whatever the registry was, after a refresh the accounted total is exactly the whole allowances and the tracked memory no job owns. |
| WorkloadMembers.RefreshFootprints | libexec/workload_members.py:9-49 | The two search phases and the two claim loops, in any order of table and queue, end in the one attribution that the generations of children define. |
| WorkloadMembers.AttributedOnce | libexec/workload_members.py:21-49 | Whatever members are on record, every process counts for at most one running job afterwards. |
| WorkloadMembers.RegistrationDecides | libexec/workload_members.py:21-27 | A live process is charged to the job that registered it, the last one if several did, whatever was remembered of it. |
| WorkloadMembers.ParentDecides | libexec/workload_members.py:29-40 | A child nobody registered counts for the job of its parent if that descends from a registered process, even if another job remembers the child. |
| WorkloadMembers.NothingIsLost | libexec/workload_members.py:29-49 | A live member that a running job registered or remembers counts for some running job, and so does every child of what counts. |
| WorkloadMembers.OnlyItsOwn | libexec/workload_members.py:9-49 | A job's share holds only live processes of this user, no supervisor, and lies in every set that holds its own live members and is closed under children. |
| Lineage.ChargedExactly | libexec/workload_members.py:9-49 | A running job is charged exactly for the processes whose nearest ancestor that is known is its own, along chains of live processes of this user. |
| Lineage.NearestDecides | libexec/workload_members.py:29-36 | Either search attributes a process to the job of its nearest known ancestor, or to none. |
| Lineage.RegisteredExactly | libexec/workload_members.py:21-27 | Known first is exactly who is registered and alive, for the last running job that registers it. |
| Lineage.RememberedExactly | libexec/workload_members.py:38-45 | Known next is who is remembered and alive, for the first running job that remembers it. |
| Protocol.StepKeeps | libexec/scheduler.py:864-1125 | Every step of registration, admission, launch, release, crash, gate and processes keeps the registry invariant. |
| Protocol.RegistryIsSafe | libexec/scheduler.py:1041-1125 | Over every interleaving and crash, running finite jobs never exceed the limit, no resource has two running jobs, ids are distinct, and each live workload process belongs to a job stored as running in its group. |
| RegistrySafety.StoredIsSafe | libexec/scheduler.py:1041-1125 | Entry by entry, after every run: no two entries have one id, no two running ones one resource, no more finite jobs run than allowed, and each workload process has its job stored as running in its group. |
| RegistrySafety.StoredIsShort | libexec/scheduler.py:935-940 | Over every run no more than 64 entries ever wait. |
| RegistrySafety.JoiningWorks | libexec/scheduler.py:920-1000 | Whoever finds the lock free, fewer than 64 waiting and no entry with its id can join the queue, step by step. |
| RegistrySafety.LaunchingWorks | libexec/scheduler.py:1447-1582 | Whoever is admitted can launch: its child is listed, stored, permitted and becomes the workload of its job in a group of its own. |
| Protocol.ExecOnlyWhenStored | libexec/scheduler.py:1700-1707 | A workload starts only when the stored registry already lists its job as running in its group. |
| Protocol.LiveJobsStay | libexec/scheduler.py:1383-1402 | No step of anyone leaves a stored registry without a running job that has a live process of its own. |
| Protocol.UngrantedNeverRuns | libexec/scheduler.py:1511-1580 | A child not yet permitted belongs to the lock holder's launch; once that holder leaves the lock or is killed, the child never executes in any later run, and a workload with its pid is another process. |
| Protocol.SpawnHasRoom | libexec/scheduler.py:1041-1125 | An admission leaves room for the job that is about to be listed. |
| Protocol.AdmissionsFitTheCap | libexec/scheduler.py:1041-1125 | Over every interleaving each strict admission leaves the whole allowances, the tracked memory no job owns and the request within the cap, on a sample whose total covers its tracked processes. |
| Ownership.ClosureIsLeast | libexec/job_observation.py:12-30 | The closure is the least set that contains the start set and is closed under same-user children. |
| Ownership.Members | libexec/job_observation.py:12-30 | Repeated passes in any order end with that closure, and with nothing when no anchor lives. |
| Lineage.OwnedExactly | libexec/job_observation.py:12-30 | A probe takes for a job's exactly the processes with a chain of this user's processes, not the supervisor, up to a remembered one or the group, provided a remembered one is left. |
| Ownership.Descendants | libexec/idle_gc.py:156-163 | The search answers with exactly the processes reachable through parent links, and refuses exactly when one is 64 or more links away. |
| Observation.PairUp | libexec/job_observation.py:49-71 | The second pass raises exactly when one of the reads it makes raises; otherwise it records an identity for exactly the processes whose two reads agree, and counts each other one under its reason. |
| Observation.SampleJob | libexec/job_observation.py:33-92 | A probe faults exactly when a table it needs is missing or a read it makes raises; it is complete only if both tables agree and every owned process was read twice under one kernel identity. |
| Probes.ListedExactly | libexec/job_observation.py:49-71 | On record are exactly the processes read twice under one positive identity, and with a footprint also those one read and an earlier identity vouch for. |
| Probes.FootprintExactly | libexec/job_observation.py:49-71 | What is on record of a process is the larger of two paired reads, or the one vouched read. |
| Probes.ProbeExactly | libexec/job_observation.py:44-84 | A probe is complete exactly when the processes stayed the same and each was read twice, and lists births exactly when all earlier ones were read twice and remain. |
| Certificate.Observer.Reconcile | libexec/job_observation.py:102-142 | One observation settles births, deaths and discoveries in the ledger, and certifies only when nothing is owed or lost. |
| Certificate.StateIsExact | libexec/job_observation.py:155-175 | On every history the counters say exactly how many complete samples counted and whether anything spoiled the evidence. |
| Certificate.PoisonIsForever | libexec/job_observation.py:155-175 | Once spoiled, no later history certifies again. |
| Certificate.SettlementConserves | libexec/job_observation.py:102-142 | One settlement neither creates nor forgets an obligation, pid reuse included. |
| Certificate.ObligationsAreConserved | libexec/job_observation.py:102-142 | Over every history, obligations seen are those resolved, those failed and those open. |
| Certificate.ReportsAreAccounted | libexec/job_observation.py:102-142 | Every identity reported in an accepted step is measured later, still owed, or has spoiled the evidence. |
| Certificate.CertificateSound | libexec/job_observation.py:95-175 | A certified peak has two complete samples, nothing spoiled or open, and a paired read for every identity ever reported. |
| Certificate.CertifiedStepsAreClean | libexec/job_observation.py:155-175 | In a certified history each sample taken into account came at most five seconds after the one before it, or the beginning, and was complete or incomplete for births alone. |
| Certificate.CertificateExact | libexec/job_observation.py:95-99 | The certificate is given exactly when it is due. |
| Evidence.CertifiedExactly | libexec/job_observation.py:95-175 | Said of the record alone: two complete samples count, none that counts was incomplete but for births, lost an obligation or came more than five seconds after the one before it or the beginning; nothing is owed; the newest is at most five seconds old. |
| Evidence.CertifiedIsUnbroken | libexec/job_observation.py:155-175 | In a certified history samples that count one after the other are at most five seconds apart, and the first is within five of the beginning. |
| Evidence.IncompleteExactly | libexec/job_observation.py:155-175 | The evidence is spoiled for good exactly when some sample that counts was interrupted, incomplete for another reason than births, or lost an obligation. |
| Evidence.AcceptedExactly | libexec/job_observation.py:102-111 | A sample is taken into account exactly when it is newer than every sample before it. |
| Evidence.OwedExactly | libexec/job_observation.py:112-134 | What is owed after a sample: what is listed and was owed or born and not measured, or was not found. |
| Evidence.PeakIsLargest | libexec/job_observation.py:168-168 | The peak on record is the largest total of a sample that counts, or zero. |
| Evidence.TotalsExactly | libexec/job_observation.py:155-175 | Each interruption is one gap on record, faults add up, and what is missing was missed by a sample or lost. |
| Orphans.CheckBound | libexec/orphan_recovery.py:41-71 | A group is bound exactly when its job lost its owner or agent and its live processes are registered, this user's, enclosed and complete. |
| OrphanGrace.BoundExactly | libexec/orphan_recovery.py:41-71 | In figures and chains: one to 128 live processes, each registered under this user with all its descendants in the group and fewer than 64 links away, none remembered outside, and the supervisor or agent gone. |
| Orphans.Recovery.Observe | libexec/orphan_recovery.py:188-231 | A scan renews, restarts, keeps or drops the lease, and proposes a plan only after the grace period. |
| Orphans.Recovery.Claim | libexec/orphan_recovery.py:280-311 | A claim, release or pin ends any lease and changes nothing else it does not name. |
| Orphans.LeaseIsWitnessed | libexec/orphan_recovery.py:188-231 | Every lease on record is witnessed by an unbroken chain of scans back to its start, with its last veto at its clear time. |
| OrphanGrace.LeaseExactly | libexec/orphan_recovery.py:188-231 | The lease after any history is that of the sightings since it was last ended: its beginning the first of the last run without a gap above ninety seconds, its clear time the last veto in it. |
| Orphans.AuthorisedOnlyAfterGrace | libexec/orphan_recovery.py:234-267 | A non-empty authorisation means such a chain, begun and free of vetoes for the grace period, and returns only registered identities. |
| OrphanGrace.AuthorisedExactly | libexec/orphan_recovery.py:234-267 | A process is authorised exactly when proposal, group and sightings agree, none older than thirty and ninety seconds, and the run and its last veto are two minutes back. |
| OrphanGrace.ProposedExactly | libexec/orphan_recovery.py:211-231 | The grace period a scan waits for is two minutes since the run began and since its last veto. |
| Orphans.ClaimRestarts | libexec/orphan_recovery.py:280-311 | After a claim the lease depends on later scans alone. |
| IdleCollector.Owner | libexec/idle_gc.py:166-173 | The walk finds the nearest agent among the first 64 ancestors, or there is none, cycles included. |
| IdleGrace.OwnerExactly | libexec/idle_gc.py:166-173 | The owner is the agent at the end of a chain of at most 64 parent links with no other agent on it. |
| IdleCollector.Quiet | libexec/idle_gc.py:523-531 | Two signatures are quiet exactly when the processes are the same and neither one nor all together used more than two seconds of CPU. |
| IdleCollector.Collector.Event | libexec/idle_gc.py:343-416 | A lifecycle event records the session's phase and ends every grace period of that agent, or changes nothing when sessions are too many. |
| Phases.IdleExactly | libexec/idle_gc.py:362-402 | Over every sequence of events a session is idle exactly when its agent has finished, no child is open, the last event names no task to keep, and it was not a child that stopped. |
| Phases.RecordIsExact | libexec/idle_gc.py:362-402 | The children on record are those started and not stopped since. |
| Phases.OthersKept | libexec/idle_gc.py:362-367 | An event leaves every other session alone whose agent still is the same process, and forgets the rest. |
| IdleCollector.Collector.FollowAll | libexec/idle_gc.py:541-566 | Every match continues or begins its candidate, everything else is forgotten, and those past the grace period are listed, in any order. |
| IdleCollector.Collector.Authorize | libexec/idle_gc.py:575-595 | A process may be stopped exactly when some recent candidate past its grace period is still disposable and quiet against its baseline. |
| IdleCollector.CandidateIsWitnessed | libexec/idle_gc.py:533-573 | Every candidate is witnessed back to its baseline: quiet at each scan, gaps within the grace period and a minute, no event of its owner. |
| IdleGrace.CandidateExactly | libexec/idle_gc.py:533-573 | The candidate after any history, from the scans and events since it was last forgotten: its baseline, its last sight, and nothing else. |
| IdleCollector.IdleOnlyAfterGrace | libexec/idle_gc.py:575-595 | A process that may be stopped was observed unchanged for the grace period, with at most two seconds of CPU in total since its baseline. |
| IdleGrace.LicensedExactly | libexec/idle_gc.py:575-595 | A candidate lets a process be stopped exactly when it is among the last sight's members, that sight is at most thirty seconds old, the baseline a grace period, and all is still since then. |
| Words.Spans | libexec/inspection.py:59-89 | The scanner finds every token, where it lies, that only space lies between, and whether the shell would expand it. |
| Characters.WordExactly | libexec/inspection.py:59-89 | A word ends at the first white space or operator outside quotes and escapes, or with the text. |
| Characters.GlobsExactly | libexec/inspection.py:59-89 | A word is marked for expansion exactly if one of * ? [ { stands in it outside quotes and escapes. |
| Characters.QuotesExactly | libexec/session_identity.py:77-77 | A string is quoted exactly if it is empty or holds a character that needs it. |
| Words.QuoteRoundTrip | libexec/session_identity.py:77-77 | Any string, quoted, is one complete word that reads back as that string. |
| OnePass.TokensReadAsTextExactly | libexec/session_identity.py:63-67 | For readable text without operators, the one-pass reader, which separates at four characters, reads what the scanner's tokens read if and only if no other space stands outside quotes and escapes. |
| SessionIdentity.BindRunner | libexec/session_identity.py:27-57 | The loop over options returns the bound words, or nothing for words outside the runner's grammar. |
| SessionIdentity.BindSetsTheKey | libexec/session_identity.py:27-57 | The runner reads the given key, every other setting in its order, and exactly the child it had. |
| SessionIdentity.ChildIsSuffix | libexec/session_identity.py:43-46 | The child is a verbatim suffix of the words. |
| SessionIdentity.BindForgets | libexec/session_identity.py:27-57 | Binding again forgets the earlier key, and with the same key changes nothing. |
| BindText.EditedTokens | libexec/session_identity.py:76-93 | The edits, applied from the right, leave exactly the bound tokens, each other word spelled as it was. |
| BindText.BoundWordsAreBound | libexec/session_identity.py:68-73 | Those tokens read as the bound words, also in the form with one word more. |
| BindText.BindRunnerText | libexec/session_identity.py:60-93 | Nothing is returned exactly when the words cannot be read or bound; without operators the result reads, token by token, as the bound words, with no more odd space than before, and a bound command is left alone. |
| BindText.BoundTextReadsBound | libexec/scheduler_policy.py:1157-1168 | Where no space but the one-pass reader's separates, the result read in one pass is the bound words of the command read in one pass, and binding it again changes nothing. |
| WideSpace.BindingMisreads | libexec/scheduler_policy.py:1144-1168 | With a no-break space before the old session key this fails, whatever the edit does: in one pass the result is not the bound words of the command, because words of the child are gone. |
| Hooks.MergeGroup | libexec/integrate.py:188-230 | One group's handlers are kept, replaced or dropped in order, or the merge is refused. |
| Hooks.EventKeepsOthers | libexec/integrate.py:177-232 | In an event every other handler keeps its group and handler index, none appears, and memcap's are exactly the generated ones. |
| HookPlaces.MatchersAreKept | libexec/integrate.py:188-232 | Every memcap handler ends up in a group generated whole or, in a group of others without further keys, under the matcher it was generated for. |
| HookPlaces.RolesAreKept | libexec/integrate.py:188-232 | A memcap handler that one of others follows is replaced where it stands by one of its own role, and no group gets a role it did not have. |
| Hooks.EventRepeats | libexec/integrate.py:177-232 | Merging an event twice is merging it once. |
| Hooks.EventAccepts | libexec/integrate.py:189-228 | A refusal needs a malformed group, or a memcap handler in front of one of others. |
| Hooks.MergeHooks | libexec/integrate.py:177-232 | The merge is refused exactly when some event is malformed or refused, and otherwise merges every event and leaves other keys alone. |
| Hooks.MergeKeepsOthers | libexec/integrate.py:177-232 | Over the whole configuration, every other handler keeps its event and indexes, and each generated handler is there as often as generated. |
| Hooks.MergeIsIdempotent | libexec/integrate.py:177-232 | Merging what was merged is accepted and changes nothing. |
| Transaction.CompareAndWrite | libexec/integrate.py:332-336 | A check and a replacement with one round of others' changes before each; what was found, checked for and written is in a record that replays from the files at the start to the files now. |
| Transaction.OverwritesAsChecked | libexec/integrate.py:332-351 | In every such record a replacement found, one round before, what it expected; it overwrites just that if and only if that round left the file alone or put the same there. |
| Transaction.RestorationMayOverwrite | libexec/integrate.py:339-349 | The race is real: a concrete run in which a restoration overwrites what another program wrote. |
| Transaction.RollBack | libexec/integrate.py:337-351 | Edits are taken back in reverse, one recorded action each: a restoration after a check, or what stopped it, and exactly those stopped are named. |
| Transaction.TakenBackOrNamed | libexec/integrate.py:337-357 | Every edit that was made has one action of the rollback: its restoration, or what stopped it, and then it is named as a conflict. |
| Transaction.NamedWasStopped | libexec/integrate.py:337-357 | Nothing is named without cause: its file held something else, or an operation on it broke. |
| Transaction.Commit | libexec/integrate.py:301-358 | What was done, whatever others write, is backups, or backups and every edit, or the first edits and their rollback, in a record that replays to the files; with nobody else writing the targets, all of them are written or all are as before but for named failures. |
| Transaction.NoClobber | libexec/integrate.py:332-351 | Every replacement of a whole commit, forwards or back, is of a file found one round before to hold exactly what it was read to hold or what was written, and overwrites anything else if and only if that round changed it. |
| Markdown.ManagedIsIdempotent | libexec/integrate.py:235-243 | Managing a file twice is managing it once, and keeps all text outside the markers. |
| Markdown.RefusedUnlessOnePair | libexec/integrate.py:235-243 | It is refused exactly when the markers are neither both missing nor one pair in order. |
| Markdown.ManagedExactly | libexec/integrate.py:235-243 | The new text character for character: the block behind a blank line where there was none, or in the place of the one pair of markers. |
| Marks.GuidanceIsProper | libexec/integrate.py:47-109 | Guidance between memcap's own markers is a block these results apply to, whatever it says, if it opens no bracket. |
| Markdown.CountOne | libexec/integrate.py:236-238 | A count of one is a single occurrence, where the search finds it. |
| Timeouts.ManagedSettles | libexec/integrate.py:115-124 | The ceiling is afterwards readable, at least a day and never lower than before; all other variables stay, and a second time nothing changes. |
| Timeouts.ManagedExactly | libexec/integrate.py:115-124 | Refused exactly if the variables are no object or the ceiling is no decimal numeral of one to fifteen digits; left alone exactly if that stands for a day or more; else a day is set. |
| Integration.Prepare | libexec/integrate.py:412-452 | All files of all selected profiles are planned, once each; it is refused exactly when a file cannot be read or merged, or when two profiles that share a file want it to differ. |
| Integration.ConfigSettles | libexec/integrate.py:418-430 | Planned again from its own result, hooks and timeout ceiling together, a configuration is accepted and left as it is. |
| Integration.PlanIsInPlace | libexec/integrate.py:454-455 | After a commit every planned file holds what was planned, whether it had to change or not. |
| Integration.InstallSettles | libexec/integrate.py:454-455 | After a committed installation of any profiles, sharing files or not, a second one is not refused and plans no change at all. |
| WorkloadEstimates.SortedIsSorted | libexec/workload_estimates.py:55-55 | Sorting is an ascending permutation. |
| WorkloadEstimates.PercentileCovers | libexec/workload_estimates.py:47-57 | An estimate rests on the largest remembered peak, and from the twentieth run on the least that covers 95 percent of them. |
| WorkloadEstimates.OneRun | libexec/workload_estimates.py:60-74 | A run lowers an estimate by at most a tenth and never below 5/4 of its own peak; a partial run never lowers it. |
| Estimates.RecordedExactly | libexec/workload_estimates.py:60-74 | What one run leaves, in figures: the largest of half a GiB, 5/4 of the peak the estimate rests on, 5/4 of its own, and 9/10 of the former estimate, rounded up; the newest fifty peaks; at most a million runs. |
| Estimates.EstimateExactly | libexec/workload_estimates.py:47-57 | The peak it rests on is the largest kept, and from the twentieth run on the least that 95 percent of them do not exceed, by counting. |
| WorkloadEstimates.FallsSlowly | libexec/workload_estimates.py:60-74 | Over any history an estimate falls by at most a tenth for each complete run. |
| WorkloadEstimates.PeakHolds | libexec/workload_estimates.py:60-74 | A peak seen once holds the estimate up through that decay. |
| WorkloadEstimates.Converges | libexec/workload_estimates.py:47-74 | With one peak repeated, the estimate is 5/4 of it, or half a GiB, after an explicit number of runs and ever after. |
| Learning.LoweredOnlyByCertificate | libexec/scheduler.py:1264-1289 | A recorded run lowers an estimate only if it succeeded with a sound certificate, by at most a tenth, and the estimate still covers 5/4 of everything any probe or host sample measured. |
| Learning.EmptyProbeWouldSpoil | libexec/job_observation.py:145-152 | The empty probe of a group that just finished is dropped for a reason: taken into account it would rule out a certificate for good. |
| CompilerProfiles.History.Record | libexec/compiler_profiles.py:183-197 | Recording updates one row, moves it last, and evicts the least recently recorded rows beyond 256. |
| CompilerProfiles.OtherRowsKept | libexec/compiler_profiles.py:183-197 | Every other row that is kept is as it was, and with fewer than 256 rows all are kept. |
| CompilerProfiles.ShrinksOnEvidence | libexec/compiler_profiles.py:146-180 | A prediction below the prior needs three complete runs of the last week on sources of nearly this size, and still covers 3/2 of each of their peaks. |
| Predictions.PredictedExactly | libexec/compiler_profiles.py:146-180 | Every prediction in figures: the prior or the floor below three valid runs; otherwise up at once to 3/2 of their largest peak, and down only on sources at most a fifth larger, to no less than that times their growth. |
| Predictions.ObservedExactly | libexec/compiler_profiles.py:183-194 | What one run leaves of a row: the newest twenty valid samples, or a floor raised to 3/2 of its peak. |
| Predictions.FreshExactly | libexec/compiler_profiles.py:163-167 | The samples that count are those of the last seven days. |
| CompilerProfiles.ShrinkAllowsForGrowth | libexec/compiler_profiles.py:170-180 | It also covers each of those peaks scaled by the growth of the sources since that run. |
| CompilerProfiles.OnlyItsOwnRowLowers | libexec/compiler_profiles.py:152-180 | Of all recorded rows only the profile's own can lower a prediction, and only with three fresh complete runs whose padded peaks it covers. |
| CompilerProfiles.FloorIsLargest | libexec/compiler_profiles.py:193-194 | The floor is the padded peak of some partial run at its time, and no partial run's is larger. |
| CompilerProfiles.FloorsOutlastPeaks | libexec/compiler_profiles.py:146-197 | A prediction below 3/2 of a partial peak needs three complete runs later than some partial run that reached that peak. |
| PartialPeaks.PromiseExactly | libexec/compiler_profiles.py:146-197 | A partial run's peak is forgotten before three later complete runs, by some continuation, if and only if when it is recorded it leaves the floor as it is while a smaller, unlapsed complete run already counts against that floor. |
| PartialPeaks.RaisedIsKept | libexec/compiler_profiles.py:190-194 | So the promise is kept for a run that raises the floor, and for any run when no complete run on record came after the floor. |
| PartialPeaks.ForgottenAtOnce | libexec/compiler_profiles.py:156-194 | And it is broken: after ten GiB, three small complete runs and a partial run of nine GiB, the next prediction is half a GiB. |

## Left out

- The owner's pause in `run`: a paused host launches without admission, so the limits on running jobs are stated for admitted launches; start spacing does count launches made while paused.
- Protocol.RegistryIsSafe: all supervisors share one limit and one user; a process that joins another job's group, or changes its user, is not modelled.
- Protocol.LiveJobsStay: a process that leaves its job's group no longer keeps the job listed; that its memory is still attributed is WorkloadMembers.NothingIsLost.
- Passes.Pass: the measured_kb and measured_at fields it also writes, which no decision reads, are not modelled.
- Selection.OneRegistryForAll: takes clocks that do not run backwards and a sample taken before the passes; each NextWaiter result stands without that.
- Protocol.AdmissionsFitTheCap: the sample is an input; its tracked total may count more than its tracked processes.
- Pressure.NoStartWhileCooling: holds within one boot; a changed boot id discards the cooldown, as in the source. It starts from an empty controller, as a new registry does.
- Evidence.TotalsExactly: takes samples that count no gap themselves, as a probe never does; the other per-reason counters are sums that decide nothing.
- Fairness.BoundedOvertaking: bounds admissions, not time; drained admissions wait for running work, whose length nobody bounds.
- `throughput.py`, `tool_demand.py` and the shell scripts are not modelled, so pending requests and demand hints are inputs.
- The tests `cleanup_reason` and `eligible` make on commands, sockets and simulators: whether a group is disposable, and which processes a scan matches, are inputs.
- Floating-point rounding: clocks and CPU times are real numbers, and the factors 1.25, 0.9, 1.5, 1.2 and 0.95 are exact.
- Type checks on registry and sample fields: a missing measurement is an absent value, a malformed registry record is not represented.
- The order of a Python dictionary, except where eviction and the latest relative profile depend on it.
- BindText.BoundTextReadsBound: its condition on space is exact for reading a text (OnePass.TokensReadAsTextExactly) and necessary for no binding in general: odd space that stays inside the child, or inside a value both readers keep, does no harm. WideSpace.BindingMisreads is a family where it does.
- BindText.BindRunnerText: promises nothing about the text when the command holds operators, because its caller does not call it then; the runner's option table is a parameter, with memcap's own in RunnerOptions.
- Hooks.MergeHooks: how a command line is recognised as memcap's is an input, and generated groups hold one handler each, as the generator writes them.
- Transaction.Commit: each target is its own path; symbolic links, modes, owners and directory creation are not modelled. A change by others in the one round between a check and the replacement behind it is overwritten, as in the source; NoClobber says exactly when.
- Integration.Prepare: reads all files at one moment and names each by what its path resolves to; JSON is any codec that reads back what it wrote; irregular files, profile discovery and the doctor's messages are not modelled.
- Markdown.ManagedIsIdempotent: takes the guidance to hold each marker once, at its two ends.
- PartialPeaks.PromiseExactly: the documentation (`compiler_profiles.py:149-150`) promises a floor until three subsequent complete runs; the code keeps that only for runs that are not exposed, and the model follows the code. It is about the row of one profile; a row evicted by 256 others is forgotten, which OtherRowsKept states.
- Locks, process tables, `ps`, signals, file permissions, notices, telemetry, traces and cancellation messages.
- The command classifiers and report generators, which are lists and plumbing.
