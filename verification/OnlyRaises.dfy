/**
 * "Only raises, never shrinks": what that rule guarantees on current evidence, and
 * exactly when out-of-date evidence lets an accepted proposal lower what a controller has.
 */
module OnlyRaises {
  import opened Prelude
  import opened HealTypes
  import opened Cluster
  import opened Executor
  import opened Validator
  import opened ValidatorTheorems
  import Capacity
  import Detect

  predicate NoLower(before: Resources, after: Resources) {
    forall k | k in before :: k in after && before[k] <= after[k]
  }

  ghost predicate OnlyRaised(before: Container, after: Container) {
    && NoLower(before.limits, after.limits) && NoLower(before.requests, after.requests)
    && before.probes.Keys == after.probes.Keys
    && forall pt, f: ProbeField | pt in before.probes :: before.probes[pt].Field(f) <= after.probes[pt].Field(f)
  }

  ghost predicate OnlyScaledUp(before: Workload, after: Workload) {
    && before.replicas <= after.replicas
    && before.containers.Keys == after.containers.Keys
    && forall name | name in before.containers :: OnlyRaised(before.containers[name], after.containers[name])
  }

  lemma OneContainerOnlyRaises(w: Workload, name: string, w': Workload)
    requires OnlyContainer(w, name, w') && OnlyRaised(w.containers[name], w'.containers[name])
    ensures OnlyScaledUp(w, w')
  {
  }

  lemma RaiseLowersNothing(current: Resources, raised: Resources, memory: Proposed, cpu: Proposed, opts: Options,
                           after: Resources)
    requires IsBoundedRaise(raised, current, memory, cpu, opts) && Overwritten(current, raised, after)
    ensures NoLower(current, after)
  {
  }

  lemma FreshResourcesOnlyRaise(b: Bundle, a: Action, opts: Options, p: Plan, w: Workload, w': Workload)
    requires IsResourcePatch(b, a, opts, p) && ResourcesSet(w, p.container, p.limits, p.requests, w')
    requires Shows(b.containers, p.container, w.containers[p.container])
    ensures OnlyScaledUp(w, w')
  {
    hide IsBoundedRaise, Overwritten, NoLower, IsSchedulable, Shows;
    var c, c' := w.containers[p.container], w'.containers[p.container];
    var cur :| Targets(b, a, p.container, cur)
      && IsBoundedRaise(p.limits, cur.limits, a.memoryLimit, a.cpuLimit, opts)
      && IsBoundedRaise(p.requests, cur.requests, a.memoryRequest, a.cpuRequest, opts);
    FindContainerExact(b.containers, p.container, c);
    FindContainerExact(b.containers, p.container, cur);
    RaiseLowersNothing(c.limits, p.limits, a.memoryLimit, a.cpuLimit, opts, c'.limits);
    RaiseLowersNothing(c.requests, p.requests, a.memoryRequest, a.cpuRequest, opts, c'.requests);
    OneContainerOnlyRaises(w, p.container, w');
  }

  lemma FreshProbeOnlyLoosens(b: Bundle, a: Action, opts: Options, p: Plan, w: Workload, w': Workload)
    requires IsProbePatch(b, a, opts, p) && ProbeSet(w, p.container, p.probeType, p.probe, w')
    requires Shows(b.containers, p.container, w.containers[p.container])
    ensures OnlyScaledUp(w, w')
  {
    hide Shows, NamesProbe;
    var c, c', pt := w.containers[p.container], w'.containers[p.container], p.probeType;
    var cur :| Targets(b, a, p.container, cur) && pt in cur.probes && IsLoosening(p.probe, cur.probes[pt], a, opts);
    FindContainerExact(b.containers, p.container, c);
    FindContainerExact(b.containers, p.container, cur);
    forall other, f: ProbeField | other in c.probes
      ensures c.probes[other].Field(f) <= c'.probes[other].Field(f)
    {
      assert LoosenedField(p.probe, f, cur.probes[pt], a, opts);
    }
    OneContainerOnlyRaises(w, p.container, w');
  }

  /** A heal judged on fresh evidence lowers nothing. */
  lemma FreshHealOnlyRaises(b: Bundle, confidence: string, a: Action, opts: Options, p: Plan, w: Workload, w': Workload)
    requires Accepts(b, confidence, a, opts, p) && CarriedOut(w, p, w')
    requires FreshEvidence(b, w, p.container)
    ensures OnlyScaledUp(w, w')
  {
    hide Accepts, IsResourcePatch, IsProbePatch, IsScaleUp, IsImagePatch, Sufficient, Shows, ResourcesSet, ProbeSet;
    AcceptedPlanIsWellShaped(b, confidence, a, opts, p);
    ValidateExact(b, confidence, a, opts, p);
    match p.kind {
      case PatchResources =>
        ResourcesSetIsLocal(w, p, w');
        FreshResourcesOnlyRaise(b, a, opts, p, w, w');
      case PatchProbe =>
        ProbeSetIsLocal(w, p, w');
        FreshProbeOnlyLoosens(b, a, opts, p, w, w');
      case ScaleReplicas =>
        AcceptedScaleIsAllowed(b, confidence, a, opts, p);
      case PatchImage =>
        OneContainerOnlyRaises(w, p.container, w');
      case _ =>
    }
  }

  lemma ResourcesSetIsLocal(w: Workload, p: Plan, w': Workload)
    requires ResourcesSet(w, p.container, p.limits, p.requests, w')
    ensures OnlyContainer(w, p.container, w')
  {
  }

  lemma ProbeSetIsLocal(w: Workload, p: Plan, w': Workload)
    requires ProbeSet(w, p.container, p.probeType, p.probe, w')
    ensures OnlyContainer(w, p.container, w')
  {
  }

  // ----- When something can be lowered -----

  /** The proposal becomes this plan, the controller has what it changes, and carrying it out makes it this. */
  ghost predicate Becomes(b: Bundle, confidence: string, a: Action, opts: Options, ctrl: ControllerRef, w: Workload,
                          p: Plan, w': Workload)
  {
    Accepts(b, confidence, a, opts, p) && Reaches(map[ctrl := w], map[], p, ctrl) && CarriedOut(w, p, w')
  }

  /** Carrying out what this proposal becomes lowers something the controller has. */
  ghost predicate Lowers(b: Bundle, confidence: string, a: Action, opts: Options, ctrl: ControllerRef, w: Workload) {
    exists p, w' :: Becomes(b, confidence, a, opts, ctrl, w, p, w') && !OnlyScaledUp(w, w')
  }

  /** Patches are let through for this fault, in this namespace. */
  predicate OpenToPatches(b: Bundle, opts: Options) {
    && !b.problem.kind.Storage()
    && (opts.allowedKinds == {} || b.problem.kind in opts.allowedKinds)
    && b.problem.namespace !in opts.denyNamespaces
    && (opts.allowNamespaces == {} || b.problem.namespace in opts.allowNamespaces)
  }

  /** The least value accepted over the one seen, if any is. */
  function LeastRaise(seen: Option<int>): int {
    if seen.Some? then Max(seen.value, 1) else 1
  }

  /** An accepted value can lie below the actual one. */
  predicate RaiseBelow(seen: Option<int>, actual: int, cap: int, multiplier: real) {
    && LeastRaise(seen) < actual && (cap != 0 ==> LeastRaise(seen) <= cap)
    && (seen.Some? && seen.value != 0 && multiplier > 0.0 ==> seen.value > 0 && multiplier >= 1.0)
  }

  function LeastLoosening(seen: int): int {
    if seen == -1 then 1 else seen + 1
  }

  predicate LooseningBelow(seen: int, actual: int, cap: int) {
    LeastLoosening(seen) < actual && (cap > 0 ==> LeastLoosening(seen) <= cap)
  }

  ghost predicate CanLowerLimit(b: Bundle, opts: Options, w: Workload, name: string, res: ResourceName,
                                cur: Container)
  {
    && !res.Extended? && name != "" && name in w.containers && res in w.containers[name].limits
    && Shows(b.containers, name, cur)
    && RaiseBelow(Get(cur.limits, res), w.containers[name].limits[res], CapOf(opts, res), opts.maxMultiplier)
  }

  ghost predicate CanLowerRequest(b: Bundle, opts: Options, w: Workload, name: string, res: ResourceName,
                                  cur: Container)
  {
    && !res.Extended? && name != "" && name in w.containers && res in w.containers[name].requests && opts.allowRequests
    && Shows(b.containers, name, cur)
    && RaiseBelow(Get(cur.requests, res), w.containers[name].requests[res], CapOf(opts, res), opts.maxMultiplier)
    && IsSchedulable(b, cur, map[res := LeastRaise(Get(cur.requests, res))])
  }

  ghost predicate CanLowerProbe(b: Bundle, opts: Options, w: Workload, name: string, pt: ProbeType, f: ProbeField,
                                cur: Container)
  {
    && pt != NoProbe && name != "" && name in w.containers && pt in w.containers[name].probes
    && Shows(b.containers, name, cur) && pt in cur.probes
    && LooseningBelow(cur.probes[pt].Field(f), w.containers[name].probes[pt].Field(f), FieldOr0(opts.maxProbe, f))
  }

  ghost predicate CanLowerReplicas(b: Bundle, opts: Options, ctrl: ControllerRef, w: Workload) {
    && !ctrl.kind.DaemonSet? && (opts.autoReplicas || opts.maxReplicas > 0) && b.autoscaler.None?
    && 0 < b.replicas < MAX_INT32 && b.replicas + 1 < w.replicas
    && b.capacity.Some? && Capacity.CanPlace(b.capacity.value, b.podRequests, 1)
    && PolicyAllows(b.replicas, opts, b.replicas + 1)
    && (opts.autoReplicas ==>
          && b.load.Some? && Capacity.EnoughEvidence(b.load.value, opts.targetCpuRatio)
          && !Capacity.Relieves(b.load.value, opts.targetCpuRatio, b.replicas))
  }

  ghost predicate CanLower(b: Bundle, opts: Options, ctrl: ControllerRef, w: Workload) {
    && OpenToPatches(b, opts)
    && (|| (exists name, res, cur :: CanLowerLimit(b, opts, w, name, res, cur))
        || (exists name, res, cur :: CanLowerRequest(b, opts, w, name, res, cur))
        || (exists name, pt, f, cur :: CanLowerProbe(b, opts, w, name, pt, f, cur))
        || CanLowerReplicas(b, opts, ctrl, w))
  }

  // ----- One value -----

  lemma GrowthReaches(x: int, multiplier: real)
    requires multiplier > 0.0
    ensures x > 0 ==> (GrowsWithin(x, multiplier, x) <==> multiplier >= 1.0)
    ensures x < 0 ==> !GrowsWithin(x, multiplier, 0)
  {
    if x > 0 {
      if multiplier >= 1.0 {
        assert x as real * multiplier >= x as real * 1.0;
      } else {
        assert x as real * multiplier < x as real * 1.0;
      }
    } else if x < 0 {
      assert x as real * multiplier < 0.0;
    }
  }

  lemma LeastRaiseIsRaise(seen: Option<int>, actual: int, cap: int, multiplier: real)
    requires RaiseBelow(seen, actual, cap, multiplier)
    ensures BoundedRaise(seen, LeastRaise(seen), cap, multiplier)
  {
    if seen.Some? && seen.value != 0 && multiplier > 0.0 {
      GrowthReaches(seen.value, multiplier);
    }
  }

  lemma RaiseBelowExact(seen: Option<int>, actual: int, cap: int, multiplier: real, v: int)
    requires BoundedRaise(seen, v, cap, multiplier) && v < actual
    ensures RaiseBelow(seen, actual, cap, multiplier) && LeastRaise(seen) <= v
  {
    if seen.Some? && seen.value != 0 && multiplier > 0.0 {
      GrowthReaches(seen.value, multiplier);
    }
  }

  // ----- Proposals that lower -----

  function Proposal(kind: ActionKind, name: string): Action {
    Action(kind, name, Unset, Unset, Unset, Unset, "", "", map[], 0)
  }

  function ProposedLimit(name: string, res: ResourceName, v: int): Action {
    if res.Memory? then Proposal(PatchResources, name).(memoryLimit := Quantity(v))
    else Proposal(PatchResources, name).(cpuLimit := Quantity(v))
  }

  function ProposedRequest(name: string, res: ResourceName, v: int): Action {
    if res.Memory? then Proposal(PatchResources, name).(memoryRequest := Quantity(v))
    else Proposal(PatchResources, name).(cpuRequest := Quantity(v))
  }

  function ProposedField(name: string, pt: ProbeType, f: ProbeField, v: int): Action {
    Proposal(PatchProbe, name).(probeType := if pt.Liveness? then "liveness" else "readiness", probe := map[f := v])
  }

  lemma HighIsAlwaysEnough(want: string)
    ensures Sufficient("high", want)
  {
  }

  lemma AcceptedPatch(b: Bundle, a: Action, opts: Options, p: Plan)
    requires OpenToPatches(b, opts)
    requires match a.kind
      case PatchResources => IsResourcePatch(b, a, opts, p)
      case PatchProbe => IsProbePatch(b, a, opts, p)
      case ScaleReplicas => IsScalePlan(b, a, opts, p)
      case _ => false
    ensures Accepts(b, "high", a, opts, p)
  {
    HighIsAlwaysEnough(opts.minConfidence);
    ValidateExact(b, "high", a, opts, p);
  }

  /** The plan one of these proposals becomes. */
  function RaisePlan(b: Bundle, name: string, limits: Resources, requests: Resources): Plan {
    EmptyPlan(PatchResources, b).(container := name, limits := limits, requests := requests)
  }

  lemma LoweredSome(b: Bundle, a: Action, opts: Options, ctrl: ControllerRef, w: Workload, p: Plan)
    requires Accepts(b, "high", a, opts, p) && Reaches(map[ctrl := w], map[], p, ctrl) && ChangeOf(p).Some?
    requires forall w' | CarriedOut(w, p, w') :: !OnlyScaledUp(w, w')
    ensures Lowers(b, "high", a, opts, ctrl, w)
  {
    hide Accepts, OnlyScaledUp, CarriedOut, Apply, Reaches;
    ChangeIsExact(p, ctrl, w);
    var w' := Apply(w, ChangeOf(p).value);
    ApplyDoes(ctrl, w, ChangeOf(p).value, w');
    assert Becomes(b, "high", a, opts, ctrl, w, p, w');
  }

  lemma LowerLimitShows(w: Workload, name: string, res: ResourceName, v: int, w': Workload)
    requires ResourcesSet(w, name, map[res := v], map[], w') && res in w.containers[name].limits
    requires v < w.containers[name].limits[res]
    ensures !OnlyScaledUp(w, w')
  {
    assert w'.containers[name].limits[res] == v;
    assert !OnlyRaised(w.containers[name], w'.containers[name]);
  }

  lemma LowerRequestShows(w: Workload, name: string, res: ResourceName, v: int, w': Workload)
    requires ResourcesSet(w, name, map[], map[res := v], w') && res in w.containers[name].requests
    requires v < w.containers[name].requests[res]
    ensures !OnlyScaledUp(w, w')
  {
    assert w'.containers[name].requests[res] == v;
    assert !OnlyRaised(w.containers[name], w'.containers[name]);
  }

  lemma TargetsByName(b: Bundle, a: Action, name: string, cur: Container)
    requires a.container == name != "" && Shows(b.containers, name, cur)
    ensures Targets(b, a, name, cur)
  {
  }

  lemma LimitCanBeLowered(b: Bundle, opts: Options, ctrl: ControllerRef, w: Workload, name: string, res: ResourceName,
                          cur: Container)
    requires OpenToPatches(b, opts) && CanLowerLimit(b, opts, w, name, res, cur)
    ensures Lowers(b, "high", ProposedLimit(name, res, LeastRaise(Get(cur.limits, res))), opts, ctrl, w)
  {
    hide Lowers, Shows, Accepts, OnlyScaledUp, BoundedRaise, RaiseBelow, OpenToPatches, ResourcesSet;
    var v := LeastRaise(Get(cur.limits, res));
    LeastRaiseIsRaise(Get(cur.limits, res), w.containers[name].limits[res], CapOf(opts, res), opts.maxMultiplier);
    BelowIsBelow(Get(cur.limits, res), w.containers[name].limits[res], CapOf(opts, res), opts.maxMultiplier);
    var a, none: Resources := ProposedLimit(name, res, v), map[];
    var p := RaisePlan(b, name, map[res := v], none);
    TargetsByName(b, a, name, cur);
    assert IsBoundedRaise(p.limits, cur.limits, a.memoryLimit, a.cpuLimit, opts);
    assert IsBoundedRaise(none, cur.requests, a.memoryRequest, a.cpuRequest, opts);
    assert p.limits != none by {
      assert res in p.limits;
    }
    assert IsResourcePatch(b, a, opts, p);
    AcceptedPatch(b, a, opts, p);
    forall w' | CarriedOut(w, p, w') {
      LowerLimitShows(w, name, res, v, w');
    }
    LoweredSome(b, a, opts, ctrl, w, p);
  }

  lemma BelowIsBelow(seen: Option<int>, actual: int, cap: int, multiplier: real)
    requires RaiseBelow(seen, actual, cap, multiplier)
    ensures LeastRaise(seen) < actual
  {
  }

  lemma RequestCanBeLowered(b: Bundle, opts: Options, ctrl: ControllerRef, w: Workload, name: string, res: ResourceName,
                            cur: Container)
    requires OpenToPatches(b, opts) && CanLowerRequest(b, opts, w, name, res, cur)
    ensures Lowers(b, "high", ProposedRequest(name, res, LeastRaise(Get(cur.requests, res))), opts, ctrl, w)
  {
    hide Lowers, Shows, Accepts, OnlyScaledUp, BoundedRaise, RaiseBelow, OpenToPatches, ResourcesSet, IsSchedulable;
    var v := LeastRaise(Get(cur.requests, res));
    LeastRaiseIsRaise(Get(cur.requests, res), w.containers[name].requests[res], CapOf(opts, res), opts.maxMultiplier);
    BelowIsBelow(Get(cur.requests, res), w.containers[name].requests[res], CapOf(opts, res), opts.maxMultiplier);
    var a, none: Resources := ProposedRequest(name, res, v), map[];
    var p := RaisePlan(b, name, none, map[res := v]);
    TargetsByName(b, a, name, cur);
    assert IsBoundedRaise(p.requests, cur.requests, a.memoryRequest, a.cpuRequest, opts);
    assert IsBoundedRaise(none, cur.limits, a.memoryLimit, a.cpuLimit, opts);
    assert p.requests != none by {
      assert res in p.requests;
    }
    assert IsResourcePatch(b, a, opts, p);
    AcceptedPatch(b, a, opts, p);
    forall w' | CarriedOut(w, p, w') {
      LowerRequestShows(w, name, res, v, w');
    }
    LoweredSome(b, a, opts, ctrl, w, p);
  }

  lemma ProbesNamed(pt: ProbeType)
    requires pt != NoProbe
    ensures NamesProbe(if pt.Liveness? then "liveness" else "readiness", pt)
  {
  }

  lemma LowerProbeShows(w: Workload, name: string, pt: ProbeType, f: ProbeField, v: int, w': Workload)
    requires ProbeSet(w, name, pt, map[f := v], w') && v < w.containers[name].probes[pt].Field(f)
    ensures !OnlyScaledUp(w, w')
  {
    assert w'.containers[name].probes[pt].Field(f) == v;
    assert !OnlyRaised(w.containers[name], w'.containers[name]);
  }

  lemma ProbeCanBeLowered(b: Bundle, opts: Options, ctrl: ControllerRef, w: Workload, name: string, pt: ProbeType,
                          f: ProbeField, cur: Container)
    requires OpenToPatches(b, opts) && CanLowerProbe(b, opts, w, name, pt, f, cur)
    ensures Lowers(b, "high", ProposedField(name, pt, f, LeastLoosening(cur.probes[pt].Field(f))), opts, ctrl, w)
  {
    hide Lowers, Shows, Accepts, OnlyScaledUp, OpenToPatches, ProbeSet, NamesProbe;
    var v := LeastLoosening(cur.probes[pt].Field(f));
    var a := ProposedField(name, pt, f, v);
    var p := EmptyPlan(PatchProbe, b).(container := name, probeType := pt, probe := map[f := v]);
    ProbesNamed(pt);
    TargetsByName(b, a, name, cur);
    assert IsLoosening(p.probe, cur.probes[pt], a, opts);
    assert f in p.probe;
    assert IsProbePatch(b, a, opts, p);
    AcceptedPatch(b, a, opts, p);
    forall w' | CarriedOut(w, p, w') {
      LowerProbeShows(w, name, pt, f, v, w');
    }
    LoweredSome(b, a, opts, ctrl, w, p);
  }

  lemma ReplicasCanBeLowered(b: Bundle, opts: Options, ctrl: ControllerRef, w: Workload)
    requires OpenToPatches(b, opts) && CanLowerReplicas(b, opts, ctrl, w)
    ensures Lowers(b, "high", Proposal(ScaleReplicas, "").(replicas := b.replicas + 1), opts, ctrl, w)
  {
    hide Lowers, Accepts, OpenToPatches, Capacity.CanPlace, PolicyAllows;
    var n := b.replicas + 1;
    var a := Proposal(ScaleReplicas, "").(replicas := n);
    var p := EmptyPlan(ScaleReplicas, b).(replicas := n);
    if opts.autoReplicas {
      Capacity.TargetReplicasIsLeast(b.load.value, opts.targetCpuRatio, n);
      Capacity.TargetReplicasIsLeast(b.load.value, opts.targetCpuRatio, b.replicas);
    }
    assert IsScaleTarget(b, a, opts, n);
    assert Placeable(b, n, n);
    assert IsScaleUp(b, a, opts, n);
    AcceptedPatch(b, a, opts, p);
    LoweredSome(b, a, opts, ctrl, w, p);
  }

  // ----- and nothing else does -----

  lemma LoweredBy(before: Resources, raised: Resources, after: Resources)
    requires Overwritten(before, raised, after)
    ensures NoLower(before, after) <==> forall res | res in raised && res in before :: before[res] <= raised[res]
  {
    if NoLower(before, after) {
      forall res | res in raised && res in before
        ensures before[res] <= raised[res]
      {
        assert before[res] <= after[res];
      }
    }
  }

  lemma ProjectionOf(b: Bundle, cur: Container, requests: Resources, total: Capacity.Requests)
    ensures IsProjection(b, cur, requests, total) <==> total == ProjectedPodRequests(b, cur, requests)
  {
  }

  lemma LeastProjectsLess(b: Bundle, cur: Container, requests: Resources, res: ResourceName, a: Action, opts: Options)
    requires IsBoundedRaise(requests, cur.requests, a.memoryRequest, a.cpuRequest, opts)
    requires res in requests && LeastRaise(Get(cur.requests, res)) <= requests[res]
    ensures var small := ProjectedPodRequests(b, cur, map[res := LeastRaise(Get(cur.requests, res))]);
      var large := ProjectedPodRequests(b, cur, requests);
      small.cpuMilli <= large.cpuMilli && small.memBytes <= large.memBytes
  {
    var least: Resources := map[res := LeastRaise(Get(cur.requests, res))];
    if Memory in requests {
      WholeUnitsMonotone(ValueOr0(cur.requests, Memory), requests[Memory]);
      if res.Memory? {
        WholeUnitsMonotone(least[Memory], requests[Memory]);
      }
    }
  }

  /** Of a request raise that can be scheduled, every part can, at its least. */
  lemma LeastIsSchedulable(b: Bundle, cur: Container, requests: Resources, res: ResourceName, a: Action, opts: Options)
    requires IsBoundedRaise(requests, cur.requests, a.memoryRequest, a.cpuRequest, opts)
    requires res in requests && LeastRaise(Get(cur.requests, res)) <= requests[res]
    requires IsSchedulable(b, cur, requests)
    ensures IsSchedulable(b, cur, map[res := LeastRaise(Get(cur.requests, res))])
  {
    hide IsBoundedRaise, LeastRaise, IsProjection, ProjectedPodRequests, Capacity.NodeTakes;
    var least: Resources := map[res := LeastRaise(Get(cur.requests, res))];
    if b.capacity.Some? {
      var s := b.capacity.value;
      var total, i :| IsProjection(b, cur, requests, total)
        && 0 <= i < |s.nodes| && s.nodes[i].schedulable && Capacity.NodeTakes(s, s.nodes[i], total, 1);
      var small := ProjectedPodRequests(b, cur, least);
      ProjectionOf(b, cur, requests, total);
      ProjectionOf(b, cur, least, small);
      LeastProjectsLess(b, cur, requests, res, a, opts);
      Capacity.NodeTakesSmaller(s, s.nodes[i], small, total, 1);
    }
  }

  /** What lowers something is one of the new values, on a key the container has. */
  lemma LoweredValue(w: Workload, name: string, limits: Resources, requests: Resources, w': Workload)
    requires ResourcesSet(w, name, limits, requests, w') && !OnlyScaledUp(w, w')
    ensures var c := w.containers[name];
      || (exists res :: res in limits && res in c.limits && limits[res] < c.limits[res])
      || (exists res :: res in requests && res in c.requests && requests[res] < c.requests[res])
  {
    var c, c' := w.containers[name], w'.containers[name];
    LoweredBy(c.limits, limits, c'.limits);
    LoweredBy(c.requests, requests, c'.requests);
    if NoLower(c.limits, c'.limits) && NoLower(c.requests, c'.requests) {
      OneContainerOnlyRaises(w, name, w');
      assert false;
    }
  }

  lemma EachRaiseIsBounded(raised: Resources, current: Resources, memory: Proposed, cpu: Proposed, opts: Options,
                           res: ResourceName)
    requires IsBoundedRaise(raised, current, memory, cpu, opts) && res in raised
    ensures !res.Extended? && BoundedRaise(Get(current, res), raised[res], CapOf(opts, res), opts.maxMultiplier)
  {
    hide BoundedRaise;
    assert res in {Memory, Cpu};
  }

  lemma LoweredLimit(b: Bundle, a: Action, opts: Options, w: Workload, p: Plan, res: ResourceName)
    requires IsResourcePatch(b, a, opts, p) && p.container in w.containers
    requires res in p.limits && res in w.containers[p.container].limits
    requires p.limits[res] < w.containers[p.container].limits[res]
    ensures exists cur :: CanLowerLimit(b, opts, w, p.container, res, cur)
  {
    hide Shows, IsSchedulable, IsBoundedRaise, BoundedRaise, RaiseBelow;
    var cur :| Targets(b, a, p.container, cur)
      && IsBoundedRaise(p.limits, cur.limits, a.memoryLimit, a.cpuLimit, opts);
    EachRaiseIsBounded(p.limits, cur.limits, a.memoryLimit, a.cpuLimit, opts, res);
    RaiseBelowExact(Get(cur.limits, res), w.containers[p.container].limits[res], CapOf(opts, res), opts.maxMultiplier,
                    p.limits[res]);
    assert CanLowerLimit(b, opts, w, p.container, res, cur);
  }

  lemma LoweredRequest(b: Bundle, a: Action, opts: Options, w: Workload, p: Plan, res: ResourceName)
    requires IsResourcePatch(b, a, opts, p) && p.container in w.containers
    requires res in p.requests && res in w.containers[p.container].requests
    requires p.requests[res] < w.containers[p.container].requests[res]
    ensures exists cur :: CanLowerRequest(b, opts, w, p.container, res, cur)
  {
    hide Shows, IsSchedulable, IsBoundedRaise, BoundedRaise, RaiseBelow;
    assert p.requests != map[];
    var cur :| Targets(b, a, p.container, cur) && opts.allowRequests && IsSchedulable(b, cur, p.requests)
      && IsBoundedRaise(p.requests, cur.requests, a.memoryRequest, a.cpuRequest, opts);
    EachRaiseIsBounded(p.requests, cur.requests, a.memoryRequest, a.cpuRequest, opts, res);
    RaiseBelowExact(Get(cur.requests, res), w.containers[p.container].requests[res], CapOf(opts, res),
                    opts.maxMultiplier, p.requests[res]);
    LeastIsSchedulable(b, cur, p.requests, res, a, opts);
    assert CanLowerRequest(b, opts, w, p.container, res, cur);
  }

  lemma LoweringResources(b: Bundle, a: Action, opts: Options, ctrl: ControllerRef, w: Workload, p: Plan, w': Workload)
    requires IsResourcePatch(b, a, opts, p) && OpenToPatches(b, opts)
    requires ResourcesSet(w, p.container, p.limits, p.requests, w') && !OnlyScaledUp(w, w')
    ensures CanLower(b, opts, ctrl, w)
  {
    hide IsResourcePatch, OnlyScaledUp, CanLowerLimit, CanLowerRequest, OpenToPatches;
    var c := w.containers[p.container];
    LoweredValue(w, p.container, p.limits, p.requests, w');
    if res :| res in p.limits && res in c.limits && p.limits[res] < c.limits[res] {
      LoweredLimit(b, a, opts, w, p, res);
    } else {
      var res :| res in p.requests && res in c.requests && p.requests[res] < c.requests[res];
      LoweredRequest(b, a, opts, w, p, res);
    }
  }

  lemma LoweringProbe(b: Bundle, a: Action, opts: Options, ctrl: ControllerRef, w: Workload, p: Plan, w': Workload)
    requires IsProbePatch(b, a, opts, p) && OpenToPatches(b, opts)
    requires ProbeSet(w, p.container, p.probeType, p.probe, w') && !OnlyScaledUp(w, w')
    ensures CanLower(b, opts, ctrl, w)
  {
    hide OpenToPatches, Shows, NamesProbe;
    var c, c', pt := w.containers[p.container], w'.containers[p.container], p.probeType;
    var cur :| Targets(b, a, p.container, cur) && pt in cur.probes && IsLoosening(p.probe, cur.probes[pt], a, opts)
      && NamesProbe(a.probeType, pt);
    if forall f: ProbeField :: c.probes[pt].Field(f) <= c'.probes[pt].Field(f) {
      OneContainerOnlyRaises(w, p.container, w');
      assert false;
    } else {
      var f: ProbeField :| c.probes[pt].Field(f) > c'.probes[pt].Field(f);
      assert LoosenedField(p.probe, f, cur.probes[pt], a, opts);
      SomeProbe(a.probeType, pt);
      assert CanLowerProbe(b, opts, w, p.container, pt, f, cur);
    }
  }

  lemma SomeProbe(text: string, pt: ProbeType)
    requires NamesProbe(text, pt)
    ensures pt != NoProbe
  {
  }

  lemma PolicyAllowsLess(current: int, opts: Options, n: int, m: int)
    requires PolicyAllows(current, opts, n) && m <= n
    ensures PolicyAllows(current, opts, m)
  {
  }

  /** A derived target above the count seen means that count does not relieve the load. */
  lemma TargetAboveSeen(b: Bundle, a: Action, opts: Options, target: int)
    requires opts.autoReplicas && IsScaleTarget(b, a, opts, target) && b.replicas < target
    ensures !Capacity.Relieves(b.load.value, opts.targetCpuRatio, b.replicas)
  {
    Capacity.TargetReplicasIsLeast(b.load.value, opts.targetCpuRatio, b.replicas);
    Capacity.TargetReplicasIsLeast(b.load.value, opts.targetCpuRatio, a.replicas);
    Capacity.TargetReplicasIsLeast(b.load.value, opts.targetCpuRatio, target - 1);
  }

  lemma LoweringReplicas(b: Bundle, a: Action, opts: Options, ctrl: ControllerRef, w: Workload, n: int)
    requires IsScaleUp(b, a, opts, n) && OpenToPatches(b, opts)
    requires !ctrl.kind.DaemonSet? && n < w.replicas
    ensures CanLower(b, opts, ctrl, w)
  {
    var target :| IsScaleTarget(b, a, opts, target) && Placeable(b, target, n) && PolicyAllows(b.replicas, opts, n);
    PlaceableExact(b, target, n);
    PlaceableExact(b, target, b.replicas + 1);
    PolicyAllowsLess(b.replicas, opts, n, b.replicas + 1);
    if opts.autoReplicas {
      TargetAboveSeen(b, a, opts, target);
    }
    assert CanLowerReplicas(b, opts, ctrl, w);
  }

  lemma LoweringMeansCanLower(b: Bundle, confidence: string, a: Action, opts: Options, ctrl: ControllerRef, w: Workload)
    requires Lowers(b, confidence, a, opts, ctrl, w)
    ensures CanLower(b, opts, ctrl, w)
  {
    hide Accepts, CanLower, OnlyScaledUp, ResourcesSet, ProbeSet, IsResourcePatch, IsProbePatch, IsScaleUp,
      IsImagePatch, Sufficient;
    var p, w' :| Becomes(b, confidence, a, opts, ctrl, w, p, w') && !OnlyScaledUp(w, w');
    AcceptedByItsKind(b, confidence, a, opts, p);
    ValidateExact(b, confidence, a, opts, p);
    match p.kind {
      case PatchResources => LoweringResources(b, a, opts, ctrl, w, p, w');
      case PatchProbe => LoweringProbe(b, a, opts, ctrl, w, p, w');
      case ScaleReplicas =>
        ScaledDown(w, p.replicas, w');
        LoweringReplicas(b, a, opts, ctrl, w, p.replicas);
      case PatchImage => NewImageOnlyRaises(w, p.container, p.image, w');
      case _ => SameOnlyRaises(w, w');
    }
  }

  lemma ScaledDown(w: Workload, n: int, w': Workload)
    requires ReplicasSet(w, n, w') && !OnlyScaledUp(w, w')
    ensures n < w.replicas
  {
  }

  lemma NewImageOnlyRaises(w: Workload, name: string, image: string, w': Workload)
    requires ImageSet(w, name, image, w')
    ensures OnlyScaledUp(w, w')
  {
    OneContainerOnlyRaises(w, name, w');
  }

  lemma SameOnlyRaises(w: Workload, w': Workload)
    requires w'.replicas == w.replicas && w'.containers == w.containers
    ensures OnlyScaledUp(w, w')
  {
  }

  /**
   * The evidence of limits, requests and probes is a pod, and a pod of an earlier
   * rollout can show less than the controller has, or nothing where a heal has since
   * set a value. The replica count is the controller's own, and out of date only when
   * it changes between the collection of the evidence and the patch. Some proposal is
   * then accepted and lowers the controller exactly when one of them has an accepted
   * value below its actual one.
   */
  lemma StaleEvidenceCanLower(b: Bundle, opts: Options, ctrl: ControllerRef, w: Workload)
    ensures (exists confidence, a :: Lowers(b, confidence, a, opts, ctrl, w)) <==> CanLower(b, opts, ctrl, w)
  {
    hide Lowers, CanLowerLimit, CanLowerRequest, CanLowerProbe, CanLowerReplicas, OpenToPatches;
    if confidence, a :| Lowers(b, confidence, a, opts, ctrl, w) {
      LoweringMeansCanLower(b, confidence, a, opts, ctrl, w);
    }
    if CanLower(b, opts, ctrl, w) {
      if name, res, cur :| CanLowerLimit(b, opts, w, name, res, cur) {
        LimitCanBeLowered(b, opts, ctrl, w, name, res, cur);
      } else if name, res, cur :| CanLowerRequest(b, opts, w, name, res, cur) {
        RequestCanBeLowered(b, opts, ctrl, w, name, res, cur);
      } else if name, pt, f, cur :| CanLowerProbe(b, opts, w, name, pt, f, cur) {
        ProbeCanBeLowered(b, opts, ctrl, w, name, pt, f, cur);
      } else {
        ReplicasCanBeLowered(b, opts, ctrl, w);
      }
    }
  }

  // ----- A stale pod -----

  /** A pod from before heals introduced its controller's memory limit and relaxed its liveness timeout. */
  function StalePod(): Bundle {
    Bundle(Detect.Problem("prod", "web-1", "app", Detect.OOMKilled), "Deployment",
           [ContainerSummary("app", Container("web:1", map[], map[], map[Liveness := ProbeInfo(0, 10, 5, 3)]))],
           None, 3, None, Capacity.Requests(0, 0), None, [], None)
  }

  function HealedWorkload(): Workload {
    var app := Container("web:1", map[Memory := 512], map[], map[Liveness := ProbeInfo(0, 10, 100, 3)]);
    Workload(3, map["app" := app], 0)
  }

  lemma StalePodLowersTheLimit(opts: Options, ctrl: ControllerRef)
    requires OpenToPatches(StalePod(), opts) && (opts.maxMemory != 0 ==> 256 <= opts.maxMemory)
    ensures exists p, w' ::
      && Becomes(StalePod(), "high", ProposedLimit("app", Memory, 256), opts, ctrl, HealedWorkload(), p, w')
      && w'.containers["app"].limits == map[Memory := 256]
  {
    hide Accepts, OpenToPatches;
    var b, a, w := StalePod(), ProposedLimit("app", Memory, 256), HealedWorkload();
    var cur, none: Resources := b.containers[0].spec, map[];
    var limits: Resources := map[Memory := 256];
    assert Shows(b.containers, "app", cur);
    assert Targets(b, a, "app", cur);
    assert IsBoundedRaise(limits, none, a.memoryLimit, a.cpuLimit, opts);
    assert IsBoundedRaise(none, none, a.memoryRequest, a.cpuRequest, opts);
    assert Memory in limits;
    var p := RaisePlan(b, "app", limits, none);
    assert IsResourcePatch(b, a, opts, p);
    AcceptedPatch(b, a, opts, p);
    var w' := w.(containers := map["app" := w.containers["app"].(limits := limits)]);
    assert CarriedOut(w, p, w');
    assert Becomes(b, "high", a, opts, ctrl, w, p, w');
  }

  lemma StalePodTightensTheProbe(opts: Options, ctrl: ControllerRef)
    requires OpenToPatches(StalePod(), opts)
    requires FieldOr0(opts.maxProbe, TimeoutSeconds) > 0 ==> 6 <= opts.maxProbe[TimeoutSeconds]
    ensures exists p, w' ::
      && Becomes(StalePod(), "high", ProposedField("app", Liveness, TimeoutSeconds, 6), opts, ctrl, HealedWorkload(),
                 p, w')
      && w'.containers["app"].probes == map[Liveness := ProbeInfo(0, 10, 6, 3)]
  {
    hide Accepts, OpenToPatches, NamesProbe;
    var b, a, w := StalePod(), ProposedField("app", Liveness, TimeoutSeconds, 6), HealedWorkload();
    var cur := b.containers[0].spec;
    var fields: ProbeFields := map[TimeoutSeconds := 6];
    assert Shows(b.containers, "app", cur);
    assert Targets(b, a, "app", cur);
    ProbesNamed(Liveness);
    assert IsLoosening(fields, cur.probes[Liveness], a, opts);
    assert TimeoutSeconds in fields;
    var p := EmptyPlan(PatchProbe, b).(container := "app", probeType := Liveness, probe := fields);
    assert IsProbePatch(b, a, opts, p);
    AcceptedPatch(b, a, opts, p);
    var app := w.containers["app"];
    var w' := w.(containers := map["app" := app.(probes := map[Liveness := ProbeInfo(0, 10, 6, 3)])]);
    assert CarriedOut(w, p, w');
    assert Becomes(b, "high", a, opts, ctrl, w, p, w');
  }
}
