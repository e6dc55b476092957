# podsmedic's healing engine, modelled and proved

podsmedic watches a Kubernetes cluster, asks a language model what is wrong with a
failing workload, and may apply the model's proposal. This project models the part
that decides, bounds, applies, remembers and undoes those changes, and proves what it
keeps. `dafny verify dfyconfig.toml` checks everything.

The model's proposal is untrusted input. Everything else the engine cannot see (what
the API server answers, what the diagnosis says, whether a write to a ConfigMap
succeeds, the time) is a parameter, so each theorem holds for every answer.

Quantities are exact integers: millicores, bytes and pods for capacity; thousandths of
a unit for the values of a patch; times are integers on one clock. Ratios are reals.

| file | what it models |
|---|---|
| Capacity, PodRequests | per-node headroom and packing, effective pod requests over the startup timeline, the used-capacity snapshot, replica targets from measured load |
| ImageRef | image references, parsed and printed |
| HealTypes, Validator, ValidateMethods, ValidatorTheorems | the gate from a proposal to a bounded plan: its branches as functions, exactly which plans it accepts, the loops that run it, and what every accepted plan guarantees |
| Cluster, HealRecord, Executor | patches as strategic merges, the record of a heal, carrying a plan out and undoing it |
| HealStore | pending records: a list filtered in place in a ConfigMap, and a map in memory |
| Lifecycle, TraceTheorems | heals, re-heals, verifications and rollbacks as a state machine over workloads and pending records; what each of its steps does, value by value, and that a failed check undoes its heal |
| OnlyRaises | what "only raises, never shrinks" guarantees, and exactly when out-of-date evidence breaks it |
| SharedSnapshot | whether the scale-ups one sweep accepts, all on one capacity snapshot, have room together |
| Breaker, Playbook, PlaybookTheorems, PlaybookHistory | the clock-driven memories: circuit breaker, remembered fixes, scars and quarantine, and what each remembers in terms of the events of its run |
| Incident, IncidentTheorems | correlation of symptoms into incidents, on heap objects, and its history |
| Health, Pacing, SweepState, Agent | the sweep, which ties incidents, playbook, breaker, executor and record store together: whom its problems blame, how its history keeps pace with the breaker, the cooldown and the budget, the values its loops work on, and the agent itself |
| Predict, Rightsize, SplitMessage | streaks of high usage, sizing observations and their judgement, splitting a chat reply |
| Prelude, Detect | shared vocabulary |

## What the proofs found

The code was kept as it is in each case, and the exact condition proved.

- Without AutoReplicas "every bound is a hard refusal" and a proposed target "that
  breaches a bound is refused outright" (`internal/heal/validate.go`, lines 473 to 480
  and 532 to 534). The code trims the proposal to the cluster's room first and tests
  the multiplier and the backstop only on what is left, so a breaching proposal can be
  accepted, trimmed. `BreachingProposalAcceptedIff` has the exact condition,
  `BreachingProposalAccepted` an input (100 replicas proposed where the multiplier allows
  8, the backstop 10 and the room 5: accepted as 5), and
  `ProposedTargetHonouredIffPlaceable` says when a proposal is honoured as made.
- "A value may only ever increase" (`internal/rightsize/rightsize.go`, lines 6 to 8)
  holds against the evidence. For limits, requests and probes that is a pod, and when the
  pod belongs to an older rollout an accepted proposal can lower what the controller has.
  The replica count is read from the controller (`internal/k8s/collect.go`, line 172), so
  it can be lowered only when it changes between the collection of the evidence and the
  patch, as when two handlers work on pods of one Deployment. `StaleEvidenceCanLower` has
  the exact condition on the evidence, the workload and the options;
  `StalePodLowersTheLimit` and `StalePodTightensTheProbe` show a pod from before a heal;
  `FreshHealOnlyRaises` is the guarantee on current evidence, and `RunStaysInEnvelope` the
  bound that holds either way. A value equal to the current one passes as an increase.
- New pods are meant to go only "into space the cluster demonstrably has"
  (`internal/heal/validate.go`, lines 470 and 471), but every heal of a sweep is judged on
  one snapshot that no accepted scale-up is charged to. Two scale-ups can then be accepted
  that do not fit together (`TwoScaleUpsOverfill`: six new pods where there is room for
  three). They always do exactly when the sweep's allowance is a single heal, or no
  scale-up is ever accepted (`SweepsFitIff`); `FitTogetherIffCharged` says that charging
  the snapshot with each one before judging the next would be exact.
- The breaker bounds the heals in every window exactly when OpenFor is at least Window
  (`BoundHoldsIffOpenAsLongAsWindow`). It ever refuses anything exactly when Window,
  OpenFor and at least one threshold are positive (`RefusesIff`): with a Window that is
  not positive it prunes every event at once, which its options comment
  (`internal/breaker/breaker.go`, lines 16 to 18) puts the other way round.
- In a run of the playbook a failure during a live quarantine can bring its end forward,
  since a decayed streak starts again from the shortest wait: exactly when FailureDecay
  plus QuarantineFor plus one nanosecond is less than the 14-day ceiling, as it is with
  the shipped defaults
  (`NeverShortensIff`, `DefaultsCanShorten`).
- A rightsizing recommendation settles its finding exactly when something was measured
  (`RecommendationSettles`): with a peak of zero it recommends a request of zero, which
  is reported again as missing.

## Model

| member | source | states |
|---|---|---|
| Capacity.FitAdditional | internal/capacity/capacity.go:119-138 | the per-node loop finds the greatest number of pods the cluster can place, any smaller one being placeable too |
| Capacity.FitCountIsOptimal | internal/capacity/capacity.go:88-138 | exactly the counts up to this one can be placed on schedulable nodes where, for CPU, memory and pod slots, what is used, what is added and the share held back (the reserve kept inside 0 and 0.9, of what is allocatable) stay within what is allocatable |
| Capacity.ReserveIsHeldBack | internal/capacity/capacity.go:88-138 | on one node of 4000m and 110 pods with a reserve of a fifth, six pods of 500m fit, not eight |
| Capacity.SmallerFitsMore | internal/capacity/capacity.go:119-138 | shrinking a pod never reduces how many of it fit |
| Capacity.FitsMeansSomeNode | internal/capacity/capacity.go:143-149 | a pod fits iff one schedulable node takes it whole |
| Capacity.TargetReplicasIsLeast | internal/capacity/capacity.go:252-303 | the derived target is the least replica count that brings utilisation to the target, and it is above the current count |
| Capacity.ComputableIffEvidence | internal/capacity/capacity.go:271-303 | a target is derived iff there are replicas, samples and a reference and utilisation is above target |
| Capacity.DefensiveBranchUnreachable | internal/capacity/capacity.go:292-300 | the guard against a target not above the current count can never fire |
| PodRequests.PodRequests | internal/k8s/capacity.go:98-140 | the one-pass computation with running sums and peaks gives the greatest demand of the startup timeline plus overhead |
| PodRequests.EffectiveIsTimelinePeak | internal/k8s/capacity.go:98-140 | the effective request is the greatest sum of containers running together at any point of startup or after, plus overhead, for every order of init containers |
| PodRequests.RaiseCostsAtMostItself | internal/k8s/capacity.go:98-140 | raising one app container never lowers what the pod reserves, and costs it at most the raise itself |
| PodRequests.ClusterCapacity | internal/k8s/capacity.go:33-63 | every pod holding resources is charged to the last listed node of its node's name, and to no other |
| PodRequests.EarlierNamesakesAreEmpty | internal/k8s/capacity.go:33-63 | of nodes listed under one name only the last carries anything |
| PodRequests.UsedIsConserved | internal/k8s/capacity.go:33-63 | the nodes' used CPU, memory and pod counts add up to what the pods on listed nodes hold, each counted once |
| ImageRef.Split | internal/heal/validate.go:636-649 | cuts off a digest after the last '@' and a tag after a colon with no slash behind it, and leaves the rest as repository |
| ImageRef.ParseIsTheSplit | internal/heal/validate.go:636-649 | every reference has exactly one such split, whatever ports, tags and digests it has, and the parsed parts are it |
| ImageRef.ParseInvertsPrint | internal/heal/validate.go:633-649 | parsing gives back the parts that were printed iff they are well formed, registry ports included |
| ImageRef.PrintInvertsParse | internal/heal/validate.go:633-649 | printing gives back the reference that was parsed iff it has no empty digest and no empty tag |
| ValidateMethods.ListMissingClaims | internal/heal/validate.go:209-217 | the loop lists the names of the missing claims, in order |
| ValidateMethods.AllClaimsBound | internal/heal/validate.go:236-243 | true iff every claim is bound |
| ValidateMethods.CheckNode | internal/heal/validate.go:759-786 | without a snapshot, refuses iff a proposed request exceeds the node's allocatable |
| ValidateMethods.PatchResources | internal/heal/validate.go:275-355 | accepts exactly the patches that raise what was proposed, within bounds and schedulably, and change something |
| ValidateMethods.PatchProbe | internal/heal/validate.go:397-468 | accepts exactly the patches that loosen, within the caps, every field proposed beyond the current timing of a probe the container has |
| ValidateMethods.Add | internal/heal/validate.go:426-452 | one field joins the patch iff it is looser and within its cap, is left out iff nothing new was proposed, and leaves the other fields alone |
| ValidateMethods.BoundByPolicy | internal/heal/validate.go:532-551 | a proposed target passes unchanged iff it is within the step limit and the backstop, and a derived one is cut to the greatest count that is |
| ValidateMethods.ScaleReplicas | internal/heal/validate.go:489-566 | accepts exactly the greatest count whose new pods can be placed, within the target, if policy allows it, and with a derived target the greatest that policy allows as well |
| ValidateMethods.Restart | internal/heal/validate.go:245-273 | accepts a restart iff there is a controller and, on a storage fault, claims that are all bound |
| ValidateMethods.CreateClaim | internal/heal/validate.go:153-232 | creates a claim iff exactly one is missing and the operator allows it, of the operator's size cut to the ceiling |
| ValidateMethods.PatchImage | internal/heal/validate.go:363-395 | accepts exactly a different, pinned version of the container's own repository |
| ValidateMethods.Decide | internal/heal/validate.go:78-145 | returns a plan iff the gates stand open and the plan is one of its own kind's |
| ValidatorTheorems.ValidateExact | internal/heal/validate.go:78-566 | for every proposal and every plan: the plan is accepted iff it is a heal the bounds allow, each kind described without the order of its checks |
| ValidatorTheorems.FindContainerExact | internal/heal/validate.go:788-795 | the container found is the spec of the first entry of that name, and none is found iff no entry has it |
| ValidatorTheorems.ConfidenceExact | internal/heal/validate.go:797-805 | in whatever case they are written, high meets every threshold, medium every one but high, low neither of those, and an unknown level only an unknown or unset one |
| ValidatorTheorems.OneMissingClaim | internal/heal/validate.go:209-217 | the list of missing claims is one name iff exactly one claim entry is missing and has that name |
| ValidatorTheorems.AcceptedByItsKind | internal/heal/validate.go:78-145 | a plan is accepted only past every gate and by the validation of the proposal's own kind |
| ValidatorTheorems.AcceptedPlanIsWellShaped | internal/heal/validate.go:78-566 | an accepted plan targets the problem's pod and the container the proposal names, or else the problem's, which the evidence shows, and fills in its own kind's fields and no other's |
| ValidatorTheorems.StorageFaultRecoveries | internal/heal/validate.go:78-273 | on a storage fault only a restart with every claim bound, or creation of the one missing claim under the size ceiling in an allowed namespace, is accepted; elsewhere no claim is created |
| ValidatorTheorems.CreateIgnoresTheModel | internal/heal/validate.go:153-203 | two proposals to create a claim, whatever else they say, get the same verdict |
| ValidatorTheorems.ResourcePatchExact | internal/heal/validate.go:275-355 | a resource patch is accepted, and as what, iff the targeted container is in the evidence, every proposed value is a bounded raise over what its entry shows, each under its own cap, requests are allowed and can be scheduled, and something changes |
| ValidatorTheorems.SchedulableExact | internal/heal/validate.go:714-786 | a request raise can be scheduled iff, with a snapshot, one schedulable node takes the pod with the raised values in place of the current ones, whole bytes rounded up, and without one the node's allocatable covers each request |
| ValidatorTheorems.BoundedIncreaseExact | internal/heal/validate.go:655-712 | a value is accepted iff positive, under its cap, not below the current one and at most the current one times the multiplier |
| ValidatorTheorems.ProjectionIsConservative | internal/heal/validate.go:728-737 | the projected total is never less than the effective request of the pod with the raise applied |
| ValidatorTheorems.RaisedPodFitsOnANode | internal/heal/validate.go:714-737 | with a snapshot, the pod as it will really be after an accepted raise fits on one schedulable node |
| ValidatorTheorems.ImageStaysInRepository | internal/heal/validate.go:604-631 | an accepted image has the current image's repository and a different, pinned tag or digest other than latest |
| ValidatorTheorems.LooseningExact | internal/heal/validate.go:426-452 | the accepted probe fields are exactly those proposed beyond the current timing, and none tightens or exceeds its cap |
| ValidatorTheorems.ProbeOnlyLoosens | internal/heal/validate.go:397-468 | every field of an accepted probe patch is larger than the evidence's and within its cap |
| ValidatorTheorems.PolicyBoundExact | internal/heal/validate.go:532-551 | of the target the cluster's room has left, policy refuses a proposed one iff it breaks the step limit or the backstop, and cuts a derived one to the greatest allowed count |
| ValidatorTheorems.ScaleUpExact | internal/heal/validate.go:489-590 | a scale-up is accepted, and to what, iff that is the greatest placeable count within the target (within policy as well when derived) and policy allows it |
| ValidatorTheorems.ScaleTargetExact | internal/heal/validate.go:570-590 | the target is the proposal, or the least relieving count, or the proposal when that is a more modest scale-up |
| ValidatorTheorems.AcceptedScaleIsAllowed | internal/heal/validate.go:489-566 | an accepted count is above the current one, within the multiplier and the backstop, and its new pods have a placement within the reserved headroom |
| ValidatorTheorems.AutoScaleIsGreatestAllowed | internal/heal/validate.go:489-590 | with a derived target, the verdict is the greatest allowed count, and a refusal means no count is allowed |
| ValidatorTheorems.BreachingProposalAcceptedIff | internal/heal/validate.go:518-551 | a proposal beyond the multiplier or the backstop is accepted iff there is room for some of its pods but not all, and the count there is room for breaks neither |
| ValidatorTheorems.BreachingProposalAccepted | internal/heal/validate.go:518-551 | an input at which it is: 2 replicas, 100 proposed, multiplier 4, backstop 10, room for 3 more, accepted as 5 |
| ValidatorTheorems.ProposedTargetHonouredIffPlaceable | internal/heal/validate.go:518-529 | an accepted proposed target is honoured as proposed iff all its new pods can be placed |
| ValidatorTheorems.ModelCannotArgueReplicasUp | internal/heal/validate.go:570-590 | on the same evidence, no proposed count changes whether a derived scale-up is accepted nor yields more replicas than proposing none |
| Cluster.Client.Patch | internal/k8s/heal.go:70-230 | an accepted patch that names something the controller has writes exactly the values it carries (image, keys, probe fields, replica count or one more restart) and leaves every other value of that controller and every other controller as it was; a dry run or a refused one changes nothing |
| Cluster.Client.CreateClaim | internal/k8s/storage.go:173-206 | a claim is created only where none of its name exists |
| HealRecord.KeysDistinguishControllers | internal/heal/record.go:62-70 | controllers whose namespaces hold no slash have different keys |
| HealRecord.PickChanged | internal/heal/record.go:161-175 | the loop keeps the old values of exactly the changed keys that had one |
| HealRecord.CurrentProbeFields | internal/heal/record.go:143-157 | the loop reads the current value of every changed field |
| HealRecord.RecordFromPlan | internal/heal/record.go:102-138 | the record names what the plan changes and, key by key, what the evidence showed there before, for the plan's own kind and no other |
| Executor.Executor.Execute | internal/heal/executor.go:60-128 | succeeds iff the controller is resolved, not managed from Git unless that is allowed, has what the plan changes, and the server accepts; applied, the controller then has the plan's image, limits, requests, probe fields, replicas or one more restart, nothing else differs, and a dry run or an error changes nothing |
| Executor.Executor.Rollback | internal/heal/executor.go:134-162 | succeeds iff the record has an old value for the kind of heal it is of, the controller still has what it changed, and the server accepts; applied, the recorded keys then have their recorded values and nothing else differs |
| Executor.UndoMatchesPlan | internal/heal/executor.go:134-162 | for every plan that can be accepted, the record's fields select the undo of the plan's own kind, with the evidence's values |
| Executor.UndoRestoresWorkload | internal/heal/executor.go:60-162 | on current evidence, applying the plan and then the recorded undo restores every changed key that had a value and keeps the keys the plan added |
| Executor.RollbackInvertsHeal | internal/heal/executor.go:60-162 | for any workloads before, after the heal and after the rollback: every changed key that had a value has it again, keys the heal introduced stay, nothing else moves; and there is nothing to roll back iff no changed key had a value |
| TraceTheorems.CheckEffect | internal/agent/agent.go:1265-1374 | over any two consecutive states of a trace: a due record still failing is put back, value by value, iff something was recorded, the controller still has it and the cluster takes it, and only then may its record go; one that recovered may just go; any other check changes nothing |
| TraceTheorems.HealStep | internal/agent/agent.go:672-797 | likewise of a heal: a refused proposal changes nothing; an accepted plan the cluster takes is carried out, value by value, and if it can be undone and was saved its record is pending under the controller's key, every field of it that of this heal |
| TraceTheorems.RecordGoesOnlyWhenDone | internal/agent/agent.go:1317-1376 | in every trace a record goes only at its own due check, which found the workload well or has just put the recorded values back |
| TraceTheorems.FailedHealIsUndone | internal/agent/agent.go:672-1376 | in every trace a heal recorded on evidence of what its controller had, anything that happens elsewhere, and its failed check leave the controller as it was before the heal, but for resource keys the heal introduced |
| HealStore.RemoveInPlace | internal/heal/store.go:102-110 | filtering a list within its own storage leaves exactly the other keys' records, in order |
| HealStore.ConfigMapStore.Save | internal/heal/store.go:72-79 | the key's record is replaced, or nothing changes when a read or write fails |
| HealStore.MemStore.List | internal/heal/store.go:130-138 | the list holds the map's records, one for each key |
| HealStore.UpsertedSetsKey | internal/heal/store.go:97-100 | saving sets the key's record and keeps one record a key |
| HealStore.StoresAgree | internal/heal/store.go:72-145 | after any saves and deletes the ConfigMap list and the in-memory map hold the same record for every workload |
| Lifecycle.PlanInEnvelope | internal/heal/validate.go:397-468 | what an accepted plan writes and what its record would put back lie between each value's start and its cap |
| Lifecycle.HealKeepsEnvelope | internal/agent/agent.go:729-796 | a heal keeps every workload and every pending old value in the envelope of the starting values |
| Lifecycle.VerifyKeepsEnvelope | internal/agent/agent.go:1265-1374 | a verification or rollback keeps it too |
| Lifecycle.RunStaysInEnvelope | internal/agent/agent.go:672-797 | over every run of heals, superseding heals, verifications and rollbacks, from the starting values or from what an earlier process left pending, each limit, request, probe field and replica count stays between its start and the larger of its start and its cap, and each image in its repository |
| Lifecycle.RestartStaysInEnvelope | internal/agent/agent.go:672-797 | a process that starts where an earlier one stopped, that one's records still pending, stays in the envelope of the first one's starting values |
| Lifecycle.LimitStaysBetweenStartAndCap | internal/heal/validate.go:655-690 | the same for one capped limit of one container |
| OnlyRaises.FreshHealOnlyRaises | internal/heal/validate.go:275-566 | a heal judged on current evidence lowers no limit, request, probe field or replica count |
| OnlyRaises.StaleEvidenceCanLower | internal/heal/validate.go:78-690 | for all evidence, options, controller and workload: some proposal is accepted and its patch lowers something iff patches are let through and a limit, a request, a probe field or the replica count has an accepted value below the actual one, values absent from the evidence included |
| OnlyRaises.StalePodLowersTheLimit | internal/heal/validate.go:655-690 | a pod without a limit, a controller with 512, and a proposal of 256 that is accepted and applied |
| OnlyRaises.StalePodTightensTheProbe | internal/heal/validate.go:397-468 | a pod with a timeout of 5, a controller with 100, and a proposal of 6 that is accepted and applied |
| SharedSnapshot.OneSizeFitsIff | internal/capacity/capacity.go:119-138 | scale-ups of pods of one size fit together on a snapshot iff it has room for all their pods at once |
| SharedSnapshot.FitTogetherIffCharged | internal/capacity/capacity.go:99-138 | scale-ups of any sizes fit together iff each fits into what those before it leave of the snapshot |
| SharedSnapshot.SweepsFitIff | internal/agent/agent.go:303-366 | all that one sweep can accept on its snapshot fits together, whatever the evidence, iff the allowance is one heal or the options let no scale-up through |
| SharedSnapshot.TwoScaleUpsOverfill | internal/heal/validate.go:489-566 | two workloads of 2 replicas and room for 3 more pods, both accepted at 5 |
| Breaker.Breaker.Allowed | internal/breaker/breaker.go:54-68 | permission iff the workload's last trip, told from its events alone, no longer suspends it; an elapsed open period is forgotten |
| Breaker.Breaker.OnHeal | internal/breaker/breaker.go:71-73 | the heal is logged, and trips the breaker iff the events logged so far say so |
| Breaker.Breaker.OnRollback | internal/breaker/breaker.go:75-78 | likewise of a rollback |
| Breaker.Breaker.Record | internal/breaker/breaker.go:80-115 | counting, pruning and judging one event, other workloads untouched |
| Breaker.Prune | internal/breaker/breaker.go:122-130 | the loop keeps exactly the events after the cutoff |
| Breaker.TripsIff | internal/breaker/breaker.go:54-130 | in every run an event trips the breaker iff it is a heal or a rollback, healing is not suspended, and the heals, or the rollbacks, later than now minus Window and since the end of the open period after the last trip, this one included, reach their threshold |
| Breaker.OpenIff | internal/breaker/breaker.go:54-115 | in every run the breaker is open iff less than OpenFor has passed since the last such trip |
| Breaker.ClosedMeansBelowThresholds | internal/breaker/breaker.go:80-115 | in every run, while the breaker is closed both counts are below their thresholds |
| Breaker.TripsAreTransitions | internal/breaker/breaker.go:80-115 | a trip is reported exactly when a breaker that was not open becomes open, for OpenFor |
| Breaker.RunsAreSpaced | internal/breaker/breaker.go:54-130 | in every run, each heal comes at least a window after the one MaxHeals before it |
| Breaker.BoundHoldsIffOpenAsLongAsWindow | internal/breaker/breaker.go:54-130 | no half-open window of any run holds more than MaxHeals heals, whatever rollbacks interleave, iff OpenFor is at least Window |
| Breaker.NoWindowNeverOpens | internal/breaker/breaker.go:80-130 | with a window that is not positive the breaker never opens |
| Breaker.RefusesIff | internal/breaker/breaker.go:54-130 | some run makes the breaker refuse iff Window, OpenFor and at least one of the thresholds are positive |
| Breaker.Breaker.OpenCount | internal/breaker/breaker.go:141-151 | counts exactly the workloads whose breaker is open |
| Playbook.Book.Record | internal/playbook/playbook.go:166-199 | learns a fix, or refreshes what is remembered of it, field by field, evicting an oldest one when full, and nothing for a quarantined pair |
| Playbook.Book.Fail | internal/playbook/playbook.go:208-250 | the fix goes and the pair's scar alone grows, quarantined at the threshold |
| Playbook.Book.Retire | internal/playbook/playbook.go:256-285 | a fix stays iff it was confirmed within MaxAge; if any goes, a scar stays iff it is quarantined or from within MaxAge |
| Playbook.Book.MarkHit | internal/playbook/playbook.go:345-355 | one more hit, now, on this pair's fix and no other |
| Playbook.Book.Evict | internal/playbook/playbook.go:359-368 | this pair's fix goes and no other |
| Playbook.KeysDistinguishPairs | internal/playbook/playbook.go:81 | pairs whose controller keys hold no bar have different keys |
| Playbook.Book.Restore | internal/playbook/playbook.go:427-440 | the restored book is the one that was listed |
| PlaybookTheorems.QuarantineSurvivesStep | internal/playbook/playbook.go:166-440 | a live quarantine survives, unchanged, every operation but another failure of its own pair |
| PlaybookTheorems.SafeStep | internal/playbook/playbook.go:166-440 | no operation gives a quarantined pair a replayable fix |
| PlaybookTheorems.QuarantinedNeverReplayable | internal/playbook/playbook.go:150-285 | in every run on a non-decreasing clock, no quarantined pair has a replayable fix |
| PlaybookTheorems.QuarantineOutlivesRun | internal/playbook/playbook.go:166-440 | until it lifts, a quarantine outlives every stretch of a run without a failure of its pair, eviction and restart included |
| PlaybookTheorems.RestoreGivesBack | internal/playbook/playbook.go:421-440 | saving and restoring gives back the same book |
| PlaybookTheorems.BookStaysBounded | internal/playbook/playbook.go:166-199 | the book never holds more than MaxEntries fixes |
| PlaybookTheorems.WaitsBackOff | internal/playbook/playbook.go:233-243 | each further failure waits at least as long as the last, up to the ceiling |
| PlaybookTheorems.WaitDoubles | internal/playbook/playbook.go:233-243 | the first wait is QuarantineFor, and one more failure waits the lesser of twice as long and 14 days |
| PlaybookHistory.EntryIsLatestTaught | internal/playbook/playbook.go:150-440 | in every run an entry holds the action and confidence its pair was last taught, dated then; it has been there since it was first taught, and counts how often it was taught and replayed since |
| PlaybookHistory.DisplacedIsOldest | internal/playbook/playbook.go:166-384 | in every run learning displaces at most one other fix, only from a full book, and none that stays was confirmed before it |
| PlaybookHistory.ScarIsCurrentStreak | internal/playbook/playbook.go:208-440 | in every run a scar counts exactly its pair's failures since the last pause longer than FailureDecay, and is dated by the last of them |
| PlaybookHistory.ScarStep | internal/playbook/playbook.go:208-250 | a failure counts one more or starts a new streak, and at the threshold earns the wait for so many; no other operation changes a scar |
| PlaybookHistory.DisplacedIsStalest | internal/playbook/playbook.go:208-343 | in every run a failure displaces at most one other scar, only from a full book, never a quarantined one, and no other unquarantined pair failed longer ago |
| PlaybookTheorems.ScarsKeepInv | internal/playbook/playbook.go:166-440 | in every reachable state every scar's quarantine is the one its failures earned, whatever was learned, retired, forgotten or restored in between |
| PlaybookTheorems.NeverShortensIff | internal/playbook/playbook.go:166-440 | no step of any run brings a live quarantine's end forward iff FailureDecay and QuarantineFor reach the ceiling |
| PlaybookTheorems.DefaultsCanShorten | internal/playbook/playbook.go:101-127 | with the defaults some run does |
| Incident.Store.Observe | internal/incident/incident.go:89-134 | the incident object of the problem's container is opened or extended, with the specified notice, and no other changes |
| Incident.ObservedIsSeen | internal/incident/incident.go:89-134 | field by field: a new incident starts with this problem, now, nothing proposed; an open one is seen once more, gains the kind if it is new and keeps the rest; no other incident changes |
| Incident.KeysDistinguishContainers | internal/incident/incident.go:81-83 | with real names two problems share an incident iff they are of one container |
| Incident.Store.Reap | internal/incident/incident.go:136-149 | an incident stays iff it was seen within resolveAfter |
| Incident.Store.SetHealProposal | internal/incident/incident.go:160-168 | an open incident remembers this proposal and confidence, and no other changes |
| Incident.Store.MarkHealed | internal/incident/incident.go:171-178 | marks an open incident, and only it |
| Incident.Store.Snapshot | internal/incident/incident.go:208-217 | lists every open incident |
| Incident.Store.Restore | internal/incident/incident.go:221-233 | the store holds exactly the listed incidents, kind sets rebuilt |
| IncidentTheorems.StepKeepsInv | internal/incident/incident.go:89-233 | each incident is a function of its lifetime's observations, and opened equals resolved plus open |
| IncidentTheorems.KindsAreFaithful | internal/incident/incident.go:89-134 | in every run an incident's kinds are distinct, start with its trigger's and are mirrored by its kind set |
| IncidentTheorems.NoticesPerLifetime | internal/incident/incident.go:89-124 | New comes once, first; Update exactly for a kind's first appearance at another time than the start, never twice a kind |
| IncidentTheorems.ResolvedIffQuiet | internal/incident/incident.go:89-233 | in every run an open incident is resolved iff a reaping finds its last observation longer ago than resolveAfter |
| IncidentTheorems.OpenedIsResolvedPlusOpen | internal/incident/incident.go:89-149 | no incident is lost |
| IncidentTheorems.RestartChangesNothing | internal/incident/incident.go:208-233 | at any point of any run, restoring a snapshot gives back the very same store |
| Health.UnhealthyControllers | internal/agent/agent.go:1383-1402 | every controller it names has a confirmed, not merely forecast, problem, and where namespaces hold no slash it names every one that has |
| Agent.Agent.Permitted | internal/agent/agent.go:672-727 | a heal goes ahead iff there is no surge, budget is left, the plan is accepted, the breaker is not open and no cooldown runs; only that workload's breaker is asked |
| Agent.Agent.MaybeHeal | internal/agent/agent.go:672-797 | a heal is applied iff every gate is open and the cluster takes the change; it is then one step of the lifecycle and on the breaker's log, and otherwise workloads and records stay |
| Agent.Agent.TryPlaybook | internal/agent/agent.go:1014-1065 | a remembered fix is replayed iff it decodes and its heal would be applied, never for a quarantined pair, and then its incident is marked healed and the hit counted; one that does not decode is dropped, and otherwise book and incident are left to the model |
| Agent.Agent.MaybeRetryHeal | internal/agent/agent.go:822-861 | an incident becomes healed iff it has a proposal that decodes, is not healed and healing it would work now; otherwise nothing changes, and no other incident ever does |
| Agent.Agent.Handle | internal/agent/agent.go:587-636 | a new incident becomes healed iff its replay would work now, or else its diagnosis would with what the replay leaves of budget and cooldowns; otherwise what was diagnosed is remembered, and no other incident changes |
| Agent.Agent.SurgeHealsNothing | internal/agent/agent.go:679-684 | while a surge suspends healing that condition never holds |
| Agent.Agent.VerifyHeals | internal/agent/agent.go:1265-1402 | every due record is checked, found failing only if its controller has a confirmed problem in this sweep (and, with real namespaces, if it has), and that step puts the recorded values back, or drops the record, or changes nothing, as CheckEffect says; the playbook hears, in order, of each failed check that the fix failed and of each passed one that it held, with its action, the breakers of each failed one, and neither of anything else; no quarantined pair gains a fix |
| Agent.Agent.FailedHealsAreUndone | internal/agent/agent.go:672-1376 | in the agent's whole history a heal recorded on evidence of what its controller had is undone by its failed check, whatever happened elsewhere in between |
| Agent.Agent.Review | internal/agent/agent.go:452-473 | after correlation every due record is checked, exactly the quiet incidents are dropped, and the new incidents still wait to be handled |
| Agent.Agent.Sweep | internal/agent/agent.go:368-492 | a whole sweep keeps the lifetime counts, the lifecycle trace, the breaker's logs, the cooldowns and the quarantine; its history only grows, by at most MaxHeals heals and by no rollback without a confirmed problem; every problem has an open incident seen now, and the newcomers are exactly its problems' incidents that were not open before, each handled, up to the cap; none past the cap is healed, and in a surge none at all |
| Agent.Agent.AtMostOneHeal | internal/agent/agent.go:804-861 | an incident's lifetime has had at most one applied heal across diagnosis, replay and retries: one iff it is marked healed |
| Agent.Agent.HealsAreBounded | internal/agent/agent.go:702-776 | with OpenFor at least Window, and where each heal patched the controller its breaker was asked about, no window of the agent's whole history holds more than the breaker's MaxHeals applied heals of any controller |
| Agent.Agent.HealsCoolDown | internal/agent/agent.go:720-727 | any two heals of one kind of change to one pod's container, in the agent's whole history, are at least the cooldown apart |
| Agent.Agent.OneHealSweepsFit | internal/agent/agent.go:303-366 | with an allowance of one heal a sweep, what the latest sweep scaled up fits together on the snapshot it was judged on |
| Agent.Agent.WorkloadsStayInEnvelope | internal/agent/agent.go:368-492 | however many sweeps have run, in a first or a restarted process, every workload and pending old value is in the envelope of the starting values |
| Agent.Agent.constructor | internal/agent/agent.go:881-970 | an agent may start from restored incidents, playbook and pending records, and everything the sweeps rely on holds |
| Predict.Predictor.Observe | internal/predict/predict.go:57-97 | the stored counters are the true streaks and the problems are those owed to them |
| Predict.StreakCountsRecentSweeps | internal/predict/predict.go:57-97 | a streak is at least n iff the last n sweeps were all high for the container |
| Predict.WarnedIffPersistent | internal/predict/predict.go:57-97 | a problem is reported iff a sample is high now and its container was in each of the last MinConsecutive sweeps |
| Predict.WarnedIffNearThroughout | internal/predict/predict.go:55-97 | with real names: a container's memory or CPU is warned of iff one of its samples is at least the ratio of a limit now, and one of its samples was in each of the last MinConsecutive sweeps |
| Predict.MemoryStreakIgnoresCpu | internal/predict/predict.go:60-96 | memory streaks do not depend on anything CPU did |
| Rightsize.Tracker.Observe | internal/rightsize/rightsize.go:222-260 | a sweep folds its samples in one after another, a new container displacing a stalest one when the history is full |
| Rightsize.HistoryStaysFaithful | internal/rightsize/rightsize.go:222-260 | each tracked container's count, sums, peaks, spec and times are those of all its samples since it was last admitted, and no more than maxTracked are held |
| Rightsize.EverySampleIsLogged | internal/rightsize/rightsize.go:222-260 | every sample of an owned container is added to that container's log, which starts afresh if it was not tracked; no other log changes, and at most one goes, a stalest one, when a new container finds the history full |
| Rightsize.MeanIsQuotient | internal/rightsize/rightsize.go:81-90 | the mean is the sum over the count, rounded toward zero |
| Rightsize.KeysDistinguishContainers | internal/rightsize/rightsize.go:47 | with real names distinct containers have distinct histories |
| Rightsize.Tracker.ForgetStalest | internal/rightsize/rightsize.go:455-466 | removes one container, none of the others last seen before it |
| Rightsize.Judge | internal/rightsize/rightsize.go:295-355 | the loop appends each resource's finding, CPU first |
| Rightsize.FindingIsExact | internal/rightsize/rightsize.go:295-355 | a resource has a finding, and which one with what numbers, iff its request is missing, or below the peak, or the peak is under the ratio of it and the recommendation saves enough |
| Rightsize.RecommendedIsLeastStep | internal/rightsize/rightsize.go:357-376 | the recommendation is the least multiple of 10 millicores or 16 MiB not below the peak times the headroom, and zero for no peak |
| Rightsize.RecommendedCoversPeak | internal/rightsize/rightsize.go:357-376 | no recommendation is below the measured peak, and it is positive iff the peak is |
| Rightsize.RecommendationSettles | internal/rightsize/rightsize.go:295-376 | setting the request to the recommendation and judging again finds nothing on that resource iff the peak is positive |
| Rightsize.SizingSettles | internal/rightsize/rightsize.go:295-376 | applying all of a container's findings at once and judging again finds nothing iff each had a positive peak |
| Rightsize.FindingsMeanWhatTheySay | internal/rightsize/rightsize.go:295-355 | each kind of finding means its condition, and an oversized one shrinks the request by at least the saving asked for |
| SplitMessage.Split | internal/chat/bot.go:366-387 | the chunks join to the text; each is non-empty and at most max; an end before the text's own falls where the next line does not fit beside the chunk, or, after a full chunk, inside a line longer than max |
| SplitMessage.CutLong | internal/chat/bot.go:377-380 | full messages are cut off a line that fits in none, and what is left is handed back |
| SplitMessage.LineEndExact | internal/chat/bot.go:372 | where a line ends: after its first newline, or with the text |

## Left out

- Agent.Agent.WorkloadsStayInEnvelope: says nothing about a run in which someone else edits a workload, or whose evidence shows a value the workload never had; nothing can be said of those from the code.
- TraceTheorems.FailedHealIsUndone: says nothing of a controller that someone else edits, or that another heal or check touches, between the heal and its check; RecordGoesOnlyWhenDone and CheckEffect cover those steps one by one.
- Agent.Agent.HealsAreBounded: is about one process, because the breaker's history is kept in memory only.
- Agent.Agent.HealsCoolDown: is about one process, because the cooldowns are kept in memory only.
- Agent.Agent.AtMostOneHeal: is about one process, because incidents are persisted before new ones are handled (internal/agent/agent.go:475-491), so a restart in between can forget that a heal was applied.
- Capacity.TargetReplicasIsLeast: is over exact rationals; rounding of floats is not modelled anywhere.
- Nil collaborators: whether auto-heal, the breaker, the playbook and verification are configured is a set of flags, not null references.
- Splitting a text into lines: the lines are walked one by one where the program first collects them.
- Heap aliasing inside the breaker, the playbook and the sizing tracker: their entries are map values, updated by replacing them, where the program holds references to shared objects; incidents are real objects.
- The order of map iteration, and so which of several equally old entries is evicted: any choice is allowed.
- Integer widths: int32 and int64 overflow is not modelled, except the clamp of a replica count to 32 bits; a quarantine's left shift is a multiplication by a power of two.
- The text of quantities: `resource.Quantity` parsing is a parameter (unset, malformed or a value), values are whole thousandths, and the evidence's current quantities are taken to parse.
- JSON and ConfigMap encoding: a remembered action either decodes to what was encoded or does not decode.
- When the agent writes its incidents and playbook to their ConfigMaps, and a failed write of them: an agent starts from any restored state that satisfies its invariants.
- Init containers as patch targets, and containers injected into the pod but absent from the controller's template: a patch of a container the template lacks is refused by the model.
- Lower-casing beyond ASCII, message texts, summaries and the order of listed findings.
- Kubernetes, HTTP, chat, diagnosis and notification clients, metrics, the audit trail, the digest, the live view and the UI: I/O and presentation.
- How a surge is detected: that it suspends healing after the retries of its sweep is modelled, its threshold is not.
- Interleavings of handler goroutines: each handled incident is one step, with one reading of the clock.
- Forget, Snapshot and Restore of the sizing history, Findings' filter and totals, the playbook's lists for display: short map and list updates that would add only easy members.
- detect, podlist, nodes, config parsing and dedupe beyond the cooldown check: branch tables and short map updates.
- Progress: a rollback with nothing to restore fails on every sweep and its record stays, and new incidents over the per-sweep cap are never diagnosed; no claim of eventual retirement or diagnosis is made.
