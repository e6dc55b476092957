/**
 * The validator as it runs: loops over the evidence, and maps and targets that each
 * check extends or trims. Every method says outright which plans it may return, and
 * gives the verdict, refusals included, that module Validator specifies.
 */
module ValidateMethods {
  import opened Prelude
  import opened HealTypes
  import opened Validator
  import opened ValidatorTheorems
  import Capacity

  method ListMissingClaims(claims: seq<Claim>) returns (out: seq<string>)
    ensures out == MissingClaims(claims)
  {
    out := [];
    for i := 0 to |claims|
      invariant out + MissingClaims(claims[i..]) == MissingClaims(claims)
    {
      if claims[i].missing {
        out := out + [claims[i].name];
      }
    }
  }

  method AllClaimsBound(claims: seq<Claim>) returns (all: bool)
    ensures all <==> forall c | c in claims :: c.bound
  {
    for i := 0 to |claims|
      invariant forall j | 0 <= j < i :: claims[j].bound
    {
      if !claims[i].bound {
        return false;
      }
    }
    all := true;
  }

  method LookUpContainer(containers: seq<ContainerSummary>, name: string) returns (found: Option<Container>)
    ensures forall c :: found == Some(c) <==> Shows(containers, name, c)
    ensures found == FindContainer(containers, name)
  {
    forall c {
      FindContainerExact(containers, name, c);
    }
    for i := 0 to |containers|
      invariant FindContainer(containers, name) == FindContainer(containers[i..], name)
    {
      if containers[i].name == name {
        return Some(containers[i].spec);
      }
    }
    found := None;
  }

  method LookUpTarget(b: Bundle, a: Action) returns (cur: Result<Container, Refusal>)
    ensures cur == Target(b, a)
  {
    var container := a.container;
    if container == "" {
      container := b.problem.container;
    }
    if container == "" {
      return Err(NoContainer);
    }
    var found := LookUpContainer(b.containers, container);
    cur := if found.None? then Err(ContainerNotFound) else Ok(found.value);
  }

  method CheckNode(b: Bundle, requests: Resources) returns (refused: Option<Refusal>)
    requires requests.Keys <= {Memory, Cpu}
    ensures refused.None? <==>
      (b.node.Some? ==> forall res | res in requests && res in b.node.value.allocatable ::
         requests[res] <= b.node.value.allocatable[res])
    ensures refused == FitsOnNode(b, requests)
  {
    if b.node.None? {
      return None;
    }
    var names := [Memory, Cpu];
    for i := 0 to 2
      invariant forall j | 0 <= j < i && names[j] in requests && names[j] in b.node.value.allocatable ::
        requests[names[j]] <= b.node.value.allocatable[names[j]]
    {
      var res := names[i];
      if res in requests && res in b.node.value.allocatable {
        if requests[res] > b.node.value.allocatable[res] {
          return Some(ExceedsNode);
        }
      }
    }
    assert names[0] == Memory && names[1] == Cpu;
    refused := None;
  }

  method CheckSchedulable(b: Bundle, cur: Container, requests: Resources) returns (refused: Option<Refusal>)
    requires requests.Keys <= {Memory, Cpu}
    ensures refused.None? <==> IsSchedulable(b, cur, requests)
    ensures refused == Schedulable(b, cur, requests)
  {
    SchedulableExact(b, cur, requests);
    if b.capacity.Some? {
      var out := b.podRequests;
      if Cpu in requests {
        out := out.(cpuMilli := out.cpuMilli + requests[Cpu] - ValueOr0(cur.requests, Cpu));
      }
      if Memory in requests {
        var raise := WholeUnits(requests[Memory]) - WholeUnits(ValueOr0(cur.requests, Memory));
        out := out.(memBytes := out.memBytes + raise);
      }
      var fit := Capacity.FitAdditional(b.capacity.value, out);
      return if fit > 0 then None else Some(DoesNotFit);
    }
    refused := CheckNode(b, requests);
  }

  method PatchResources(b: Bundle, a: Action, opts: Options) returns (v: Verdict)
    ensures forall p :: v == Ok(p) <==> IsResourcePatch(b, a, opts, p)
    ensures v == ValidatePatch(b, a, opts)
  {
    forall p {
      ResourcePatchExact(b, a, opts, p);
    }
    var cur :- LookUpTarget(b, a);
    var limits: Resources, requests: Resources := map[], map[];
    if !a.memoryLimit.Unset? {
      var want :- BoundedIncrease(Get(cur.limits, Memory), a.memoryLimit, opts.maxMemory, opts.maxMultiplier);
      limits := limits[Memory := want];
    }
    if !a.cpuLimit.Unset? {
      var want :- BoundedIncrease(Get(cur.limits, Cpu), a.cpuLimit, opts.maxCpu, opts.maxMultiplier);
      limits := limits[Cpu := want];
    }
    if (!a.memoryRequest.Unset? || !a.cpuRequest.Unset?) && !opts.allowRequests {
      return Err(RequestsDisabled);
    }
    if !a.memoryRequest.Unset? {
      var want :- BoundedIncrease(Get(cur.requests, Memory), a.memoryRequest, opts.maxMemory, opts.maxMultiplier);
      requests := requests[Memory := want];
    }
    if !a.cpuRequest.Unset? {
      var want :- BoundedIncrease(Get(cur.requests, Cpu), a.cpuRequest, opts.maxCpu, opts.maxMultiplier);
      requests := requests[Cpu := want];
    }
    if requests != map[] {
      var refused := CheckSchedulable(b, cur, requests);
      if refused.Some? {
        return Err(refused.value);
      }
    }
    if limits == map[] && requests == map[] {
      return Err(NoChange);
    }
    var plan := EmptyPlan(HealTypes.PatchResources, b);
    v := Ok(plan.(container := TargetName(b, a), limits := limits, requests := requests));
  }

  method PatchProbe(b: Bundle, a: Action, opts: Options) returns (v: Verdict)
    ensures forall p :: v == Ok(p) <==> IsProbePatch(b, a, opts, p)
    ensures v == ValidatePatchProbe(b, a, opts)
  {
    forall p {
      PatchProbeExact(b, a, opts, p);
    }
    var cur :- LookUpTarget(b, a);
    var pt := ParseProbeType(a.probeType);
    if pt.NoProbe? {
      return Err(BadProbeType);
    }
    if pt !in cur.probes {
      return Err(NoSuchProbe);
    }
    var fields: ProbeFields := map[];
    fields :- Add(fields, InitialDelaySeconds, cur.probes[pt], a, opts);
    fields :- Add(fields, PeriodSeconds, cur.probes[pt], a, opts);
    fields :- Add(fields, TimeoutSeconds, cur.probes[pt], a, opts);
    fields :- Add(fields, FailureThreshold, cur.probes[pt], a, opts);
    if fields == map[] {
      return Err(NoLoosening);
    }
    v := Ok(EmptyPlan(HealTypes.PatchProbe, b).(container := TargetName(b, a), probeType := pt, probe := fields));
  }

  /** One field of a probe: unchanged, looser and accepted, or refused. */
  method Add(fields: ProbeFields, f: ProbeField, cur: ProbeInfo, a: Action, opts: Options)
    returns (added: Result<ProbeFields, Refusal>)
    requires f !in fields
    ensures forall out :: added == Ok(out) <==> LoosenedField(out, f, cur, a, opts) && out - {f} == fields
    ensures added == AddField(fields, f, cur, a, opts)
  {
    forall out {
      OneField(fields, f, cur, a, opts, out);
    }
    var proposed, current, cap := FieldOr0(a.probe, f), cur.Field(f), FieldOr0(opts.maxProbe, f);
    if proposed == 0 {
      return Ok(fields);
    }
    if proposed < current {
      return Err(Tightens);
    }
    if proposed == current {
      return Ok(fields);
    }
    if cap > 0 && proposed > cap {
      return Err(ProbeAboveCap);
    }
    added := Ok(fields[f := proposed]);
  }

  /**
   * The step limit, then the backstop: a proposed target passes unchanged or not at
   * all, a derived one is cut least.
   */
  method BoundByPolicy(wanted: int, current: int, opts: Options) returns (bounded: Result<int, Refusal>)
    requires current > 0
    ensures bounded.Ok? ==> bounded.value <= wanted && PolicyAllows(current, opts, bounded.value)
    ensures !opts.autoReplicas ==> if PolicyAllows(current, opts, wanted) then bounded == Ok(wanted) else bounded.Err?
    ensures opts.autoReplicas ==>
      bounded.Ok? && forall n | n <= wanted && PolicyAllows(current, opts, n) :: n <= bounded.value
    ensures bounded == PolicyBound(wanted, current, opts)
  {
    forall n {
      PolicyBoundExact(wanted, current, opts, n);
    }
    var target := wanted;
    if opts.maxMultiplier > 0.0 {
      var ceiling := Ceiling(current, opts.maxMultiplier);
      if target > ceiling {
        if !opts.autoReplicas {
          return Err(AboveMultiplier);
        }
        target := ceiling;
      }
    }
    if opts.maxReplicas > 0 && target > opts.maxReplicas {
      if !opts.autoReplicas {
        return Err(AboveReplicaCap);
      }
      target := opts.maxReplicas;
    }
    bounded := Ok(target);
  }

  /** The target is derived or proposed, then trimmed by the room there is and by policy. */
  method ScaleReplicas(b: Bundle, a: Action, opts: Options) returns (v: Verdict)
    ensures forall p :: v == Ok(p) <==> IsScalePlan(b, a, opts, p)
    ensures v == ValidateScaleReplicas(b, a, opts)
  {
    forall p {
      ScalePlanExact(b, a, opts, p);
    }
    if !opts.autoReplicas && opts.maxReplicas <= 0 {
      return Err(ScalingDisabled);
    }
    if b.autoscaler.Some? {
      return Err(OwnedByAutoscaler);
    }
    var current := b.replicas;
    if current <= 0 {
      return Err(ReplicasUnknown);
    }
    var target :- ScaleTarget(b, a, opts);
    if target <= current {
      return Err(NotAScaleUp);
    }
    if b.capacity.None? {
      return Err(CapacityUnknown);
    }
    var fit := Capacity.FitAdditional(b.capacity.value, b.podRequests);
    if fit <= 0 {
      return Err(NoRoom);
    }
    if target > AddClamped(current, fit) {
      target := AddClamped(current, fit);
    }
    target :- BoundByPolicy(target, current, opts);
    if target <= current {
      return Err(TrimmedAway);
    }
    v := Ok(EmptyPlan(HealTypes.ScaleReplicas, b).(replicas := target));
  }

  method Restart(b: Bundle) returns (v: Verdict)
    ensures forall p :: v == Ok(p) <==> IsRestart(b, p)
    ensures v == ValidateRestart(b)
  {
    if b.problem.kind.Storage() {
      var bound := AllClaimsBound(b.claims);
      if !bound {
        return Err(ClaimNotBound);
      }
      if |b.claims| == 0 {
        return Err(NoClaimEvidence);
      }
    }
    if b.ownerKind == "" {
      return Err(NoController);
    }
    v := Ok(EmptyPlan(RestartWorkload, b));
  }

  method CreateClaim(b: Bundle, opts: Options) returns (v: Verdict)
    ensures forall p :: v == Ok(p) <==> IsClaimCreation(b, opts, p)
    ensures v == ValidateCreatePVC(b, opts)
  {
    forall p {
      ClaimCreationExact(b, opts, p);
    }
    if !opts.pvcAutoCreate {
      return Err(CreateDisabled);
    }
    if opts.allowNamespaces == {} {
      return Err(CreateNeedsAllowlist);
    }
    var missing := ListMissingClaims(b.claims);
    if |missing| == 0 {
      return Err(NoClaimMissing);
    }
    if |missing| > 1 {
      return Err(ManyClaimsMissing);
    }
    if b.replicas > 1 {
      return Err(SharedClaim);
    }
    var size :- BoundedClaimSize(opts);
    var claim := ClaimSpec(b.problem.namespace, missing[0], size, opts.pvcStorageClass, "ReadWriteOnce");
    v := Ok(EmptyPlan(CreatePVC, b).(claim := Some(claim)));
  }

  method PatchImage(b: Bundle, a: Action) returns (v: Verdict)
    ensures forall p :: v == Ok(p) <==> IsImagePatch(b, a, p)
    ensures v == ValidatePatchImage(b, a)
  {
    forall p {
      PatchImageExact(b, a, p);
    }
    var cur :- LookUpTarget(b, a);
    var image :- BoundedImage(cur.image, a.image);
    v := Ok(EmptyPlan(HealTypes.PatchImage, b).(container := TargetName(b, a), image := image));
  }

  method Decide(b: Bundle, confidence: string, a: Action, opts: Options) returns (v: Verdict)
    ensures forall p :: v == Ok(p) <==> IsHeal(b, confidence, a, opts, p)
    ensures v == Validate(b, confidence, a, opts)
  {
    forall p {
      ValidateExact(b, confidence, a, opts, p);
    }
    if a.kind.NoAction? {
      return Err(NothingProposed);
    }
    if b.problem.kind.Storage() && !a.kind.RestartWorkload? && !a.kind.CreatePVC? {
      return Err(NotForStorageFault);
    }
    if a.kind.CreatePVC? && !b.problem.kind.Storage() {
      return Err(OnlyForStorageFault);
    }
    if opts.allowedKinds != {} && b.problem.kind !in opts.allowedKinds {
      return Err(KindNotAllowed);
    }
    if !ConfidenceAtLeast(confidence, opts.minConfidence) {
      return Err(LowConfidence);
    }
    if b.problem.namespace in opts.denyNamespaces {
      return Err(NamespaceDenied);
    }
    if opts.allowNamespaces != {} && b.problem.namespace !in opts.allowNamespaces {
      return Err(NamespaceNotAllowed);
    }
    match a.kind {
      case PatchResources => v := PatchResources(b, a, opts);
      case RestartWorkload => v := Restart(b);
      case PatchImage => v := PatchImage(b, a);
      case PatchProbe => v := PatchProbe(b, a, opts);
      case ScaleReplicas => v := ScaleReplicas(b, a, opts);
      case CreatePVC => v := CreateClaim(b, opts);
      case _ => v := Err(UnknownKind);
    }
  }
}
