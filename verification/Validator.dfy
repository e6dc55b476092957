/** Turns an untrusted proposal into a bounded plan, or refuses it. */
module Validator {
  import opened Prelude
  import opened HealTypes
  import Capacity
  import ImageRef

  type Verdict = Result<Plan, Refusal>

  // ----- Gates every proposal passes -----

  function LowerChar(c: char): char {
    if 'A' <= c <= 'Z' then c - 'A' + 'a' else c
  }

  function ToLower(s: string): string {
    seq(|s|, i requires 0 <= i < |s| => LowerChar(s[i]))
  }

  function Rank(confidence: string): nat {
    var c := ToLower(confidence);
    if c == "low" then 1 else if c == "medium" then 2 else if c == "high" then 3 else 0
  }

  predicate ConfidenceAtLeast(have: string, want: string) {
    want == "" || Rank(have) >= Rank(want)
  }

  function Gate(b: Bundle, confidence: string, a: Action, opts: Options): Option<Refusal> {
    var storage := b.problem.kind.Storage();
    var ns := b.problem.namespace;
    if a.kind.NoAction? then Some(NothingProposed)
    else if storage && !a.kind.RestartWorkload? && !a.kind.CreatePVC? then Some(NotForStorageFault)
    else if a.kind.CreatePVC? && !storage then Some(OnlyForStorageFault)
    else if opts.allowedKinds != {} && b.problem.kind !in opts.allowedKinds then Some(KindNotAllowed)
    else if !ConfidenceAtLeast(confidence, opts.minConfidence) then Some(LowConfidence)
    else if ns in opts.denyNamespaces then Some(NamespaceDenied)
    else if opts.allowNamespaces != {} && ns !in opts.allowNamespaces then Some(NamespaceNotAllowed)
    else None
  }

  function Validate(b: Bundle, confidence: string, a: Action, opts: Options): Verdict {
    var refused := Gate(b, confidence, a, opts);
    if refused.Some? then Err(refused.value) else
      match a.kind
      case PatchResources => ValidatePatch(b, a, opts)
      case RestartWorkload => ValidateRestart(b)
      case PatchImage => ValidatePatchImage(b, a)
      case PatchProbe => ValidatePatchProbe(b, a, opts)
      case ScaleReplicas => ValidateScaleReplicas(b, a, opts)
      case CreatePVC => ValidateCreatePVC(b, opts)
      case _ => Err(UnknownKind)
  }

  // ----- Storage recoveries -----

  function MissingClaims(claims: seq<Claim>): seq<string> {
    if claims == [] then []
    else (if claims[0].missing then [claims[0].name] else []) + MissingClaims(claims[1..])
  }

  function BoundedClaimSize(opts: Options): Result<int, Refusal> {
    if !opts.pvcDefaultSize.Quantity? || opts.pvcDefaultSize.milli <= 0 then Err(BadClaimSize)
    else if opts.pvcMaxSize != 0 && opts.pvcDefaultSize.milli > opts.pvcMaxSize then Ok(opts.pvcMaxSize)
    else Ok(opts.pvcDefaultSize.milli)
  }

  function ValidateCreatePVC(b: Bundle, opts: Options): Verdict {
    var missing := MissingClaims(b.claims);
    if !opts.pvcAutoCreate then Err(CreateDisabled)
    else if opts.allowNamespaces == {} then Err(CreateNeedsAllowlist)
    else if |missing| == 0 then Err(NoClaimMissing)
    else if |missing| > 1 then Err(ManyClaimsMissing)
    else if b.replicas > 1 then Err(SharedClaim)
    else
      var size :- BoundedClaimSize(opts);
      var claim := ClaimSpec(b.problem.namespace, missing[0], size, opts.pvcStorageClass, "ReadWriteOnce");
      Ok(EmptyPlan(CreatePVC, b).(claim := Some(claim)))
  }

  function ValidateRestart(b: Bundle): Verdict {
    if b.problem.kind.Storage() && exists c | c in b.claims :: !c.bound then Err(ClaimNotBound)
    else if b.problem.kind.Storage() && b.claims == [] then Err(NoClaimEvidence)
    else if b.ownerKind == "" then Err(NoController)
    else Ok(EmptyPlan(RestartWorkload, b))
  }

  // ----- The container a patch targets -----

  function FindContainer(containers: seq<ContainerSummary>, name: string): Option<Container> {
    if containers == [] then None
    else if containers[0].name == name then Some(containers[0].spec)
    else FindContainer(containers[1..], name)
  }

  function TargetName(b: Bundle, a: Action): string {
    if a.container == "" then b.problem.container else a.container
  }

  function Target(b: Bundle, a: Action): Result<Container, Refusal> {
    if TargetName(b, a) == "" then Err(NoContainer)
    else
      var found := FindContainer(b.containers, TargetName(b, a));
      if found.None? then Err(ContainerNotFound) else Ok(found.value)
  }

  // ----- Resource raises -----

  function CapOf(opts: Options, res: ResourceName): int {
    match res
    case Memory => opts.maxMemory
    case Cpu => opts.maxCpu
    case Extended(_) => 0
  }

  /** A current value times the growth multiplier, rounded toward zero. */
  function Ceiling(current: int, multiplier: real): int {
    Trunc(current as real * multiplier)
  }

  function BoundedIncrease(current: Option<int>, proposed: Proposed, cap: int, multiplier: real): Result<int, Refusal> {
    if !proposed.Quantity? then Err(BadQuantity)
    else
      var want := proposed.milli;
      if want <= 0 then Err(NotPositive)
      else if cap != 0 && want > cap then Err(AboveCap)
      else if current.Some? && want < current.value then Err(Shrinks)
      else if current.Some? && multiplier > 0.0 && current.value != 0
           && want > Ceiling(current.value, multiplier) then Err(GrowsTooFast)
      else Ok(want)
  }

  /** Adds one raised value to those accepted so far; an unset proposal changes nothing. */
  function AddRaise(accepted: Resources, res: ResourceName, current: Resources, proposed: Proposed, opts: Options)
    : Result<Resources, Refusal>
  {
    if proposed.Unset? then Ok(accepted) else
      var v :- BoundedIncrease(Get(current, res), proposed, CapOf(opts, res), opts.maxMultiplier);
      Ok(accepted[res := v])
  }

  function RaisedLimits(cur: Container, a: Action, opts: Options): Result<Resources, Refusal> {
    var withMemory :- AddRaise(map[], Memory, cur.limits, a.memoryLimit, opts);
    AddRaise(withMemory, Cpu, cur.limits, a.cpuLimit, opts)
  }

  function RaisedRequests(cur: Container, a: Action, opts: Options): Result<Resources, Refusal> {
    if !(a.memoryRequest.Unset? && a.cpuRequest.Unset?) && !opts.allowRequests then Err(RequestsDisabled) else
      var withMemory :- AddRaise(map[], Memory, cur.requests, a.memoryRequest, opts);
      AddRaise(withMemory, Cpu, cur.requests, a.cpuRequest, opts)
  }

  function ValidatePatch(b: Bundle, a: Action, opts: Options): Verdict {
    var cur :- Target(b, a);
    var limits :- RaisedLimits(cur, a, opts);
    var requests :- RaisedRequests(cur, a, opts);
    var refused := if requests == map[] then None else Schedulable(b, cur, requests);
    if refused.Some? then Err(refused.value)
    else if limits == map[] && requests == map[] then Err(NoChange)
    else Ok(EmptyPlan(PatchResources, b).(container := TargetName(b, a), limits := limits, requests := requests))
  }

  /** Whole units of a quantity, rounded up. */
  function WholeUnits(milli: int): int {
    -((-milli) / 1000)
  }

  function ValueOr0(m: Resources, res: ResourceName): int {
    if res in m then m[res] else 0
  }

  /** The pod's current total plus the change on each raised resource. */
  function ProjectedPodRequests(b: Bundle, cur: Container, requests: Resources): Capacity.Requests {
    Capacity.Requests(
      b.podRequests.cpuMilli + (if Cpu in requests then requests[Cpu] - ValueOr0(cur.requests, Cpu) else 0),
      b.podRequests.memBytes
        + (if Memory in requests then WholeUnits(requests[Memory]) - WholeUnits(ValueOr0(cur.requests, Memory)) else 0))
  }

  function FitsOnNode(b: Bundle, requests: Resources): Option<Refusal> {
    if b.node.Some? && exists res | res in requests && res in b.node.value.allocatable ::
         requests[res] > b.node.value.allocatable[res]
    then Some(ExceedsNode) else None
  }

  function Schedulable(b: Bundle, cur: Container, requests: Resources): Option<Refusal> {
    if b.capacity.None? then FitsOnNode(b, requests)
    else if Capacity.Fits(b.capacity.value, ProjectedPodRequests(b, cur, requests)) then None
    else Some(DoesNotFit)
  }

  // ----- Image corrections -----

  function BoundedImage(current: string, proposed: string): Result<string, Refusal> {
    var cur, next := ImageRef.Parse(current), ImageRef.Parse(proposed);
    if proposed == "" then Err(NoImage)
    else if current == "" then Err(CurrentImageUnknown)
    else if next.repo != cur.repo then Err(OtherRepository)
    else if next.tag == "" && next.digest == "" then Err(NotPinned)
    else if next.tag == "latest" then Err(MutableTag)
    else if next.tag == cur.tag && next.digest == cur.digest then Err(SameImage)
    else Ok(proposed)
  }

  function ValidatePatchImage(b: Bundle, a: Action): Verdict {
    var cur :- Target(b, a);
    var image :- BoundedImage(cur.image, a.image);
    Ok(EmptyPlan(PatchImage, b).(container := TargetName(b, a), image := image))
  }

  // ----- Probe loosening -----

  function ParseProbeType(text: string): ProbeType {
    if ToLower(text) == "liveness" then Liveness
    else if ToLower(text) == "readiness" then Readiness
    else NoProbe
  }

  function FieldOr0(m: ProbeFields, f: ProbeField): int {
    if f in m then m[f] else 0
  }

  function AddField(fields: ProbeFields, f: ProbeField, cur: ProbeInfo, a: Action, opts: Options)
    : Result<ProbeFields, Refusal>
  {
    var proposed, current, cap := FieldOr0(a.probe, f), cur.Field(f), FieldOr0(opts.maxProbe, f);
    if proposed == 0 then Ok(fields)
    else if proposed < current then Err(Tightens)
    else if proposed == current then Ok(fields)
    else if cap > 0 && proposed > cap then Err(ProbeAboveCap)
    else Ok(fields[f := proposed])
  }

  function LoosenedFields(cur: ProbeInfo, a: Action, opts: Options): Result<ProbeFields, Refusal> {
    var f1 :- AddField(map[], InitialDelaySeconds, cur, a, opts);
    var f2 :- AddField(f1, PeriodSeconds, cur, a, opts);
    var f3 :- AddField(f2, TimeoutSeconds, cur, a, opts);
    AddField(f3, FailureThreshold, cur, a, opts)
  }

  function ValidatePatchProbe(b: Bundle, a: Action, opts: Options): Verdict {
    var cur :- Target(b, a);
    var pt := ParseProbeType(a.probeType);
    if pt.NoProbe? then Err(BadProbeType)
    else if pt !in cur.probes then Err(NoSuchProbe)
    else
      var fields :- LoosenedFields(cur.probes[pt], a, opts);
      if fields == map[] then Err(NoLoosening)
      else Ok(EmptyPlan(PatchProbe, b).(container := TargetName(b, a), probeType := pt, probe := fields))
  }

  // ----- Scaling up -----

  const MAX_INT32 := 0x7FFF_FFFF

  function AddClamped(current: int, fit: int): int {
    if current + fit < MAX_INT32 then current + fit else MAX_INT32
  }

  function ScaleTarget(b: Bundle, a: Action, opts: Options): Result<int, Refusal> {
    if !opts.autoReplicas then Ok(a.replicas)
    else if b.load.None? then Err(NoLoad)
    else
      var derived := Capacity.TargetReplicas(b.load.value, opts.targetCpuRatio);
      if derived.Err? then Err(TargetNotComputable(derived.error))
      else if b.replicas < a.replicas < derived.value then Ok(a.replicas)
      else Ok(derived.value)
  }

  /** The step limit, then the configured backstop; a derived target is trimmed, a proposed one refused. */
  function PolicyBound(target: int, current: int, opts: Options): Result<int, Refusal> {
    var ceiling := Ceiling(current, opts.maxMultiplier);
    if opts.maxMultiplier > 0.0 && target > ceiling && !opts.autoReplicas then Err(AboveMultiplier)
    else
      var stepped := if opts.maxMultiplier > 0.0 && target > ceiling then ceiling else target;
      if opts.maxReplicas > 0 && stepped > opts.maxReplicas then
        if !opts.autoReplicas then Err(AboveReplicaCap) else Ok(opts.maxReplicas)
      else Ok(stepped)
  }

  function ValidateScaleReplicas(b: Bundle, a: Action, opts: Options): Verdict {
    var current := b.replicas;
    if !opts.autoReplicas && opts.maxReplicas <= 0 then Err(ScalingDisabled)
    else if b.autoscaler.Some? then Err(OwnedByAutoscaler)
    else if current <= 0 then Err(ReplicasUnknown)
    else
      var target :- ScaleTarget(b, a, opts);
      if target <= current then Err(NotAScaleUp)
      else if b.capacity.None? then Err(CapacityUnknown)
      else
        var fit := Capacity.FitCount(b.capacity.value, b.podRequests);
        if fit <= 0 then Err(NoRoom)
        else
          var bounded :- PolicyBound(Min(target, AddClamped(current, fit)), current, opts);
          if bounded <= current then Err(TrimmedAway)
          else Ok(EmptyPlan(ScaleReplicas, b).(replicas := bounded))
  }
}
