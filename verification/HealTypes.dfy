/**
 * The untrusted proposal, the evidence it is judged on, the operator's bounds and
 * the bounded plan. A quantity is an exact number of thousandths of its unit:
 * millicores for CPU, thousandths of a byte for memory.
 */
module HealTypes {
  import opened Prelude
  import Capacity
  import Detect

  datatype ActionKind =
    | NoAction | PatchResources | RestartWorkload | PatchImage | PatchProbe | ScaleReplicas | CreatePVC
    | UnknownAction(text: string)

  datatype ResourceName = Memory | Cpu | Extended(name: string)

  datatype ProbeType = NoProbe | Liveness | Readiness

  datatype ProbeField = InitialDelaySeconds | PeriodSeconds | TimeoutSeconds | FailureThreshold

  type Resources = map<ResourceName, int>
  type ProbeFields = map<ProbeField, int>

  function Get(m: Resources, res: ResourceName): (found: Option<int>)
    ensures forall v :: found == Some(v) <==> res in m && v == m[res]
  {
    if res in m then Some(m[res]) else None
  }

  /** A quantity as the model spelled it: left empty, not parseable, or a value. */
  datatype Proposed = Unset | Malformed | Quantity(milli: int)

  datatype Action = Action(
    kind: ActionKind,
    container: string,
    memoryLimit: Proposed, cpuLimit: Proposed, memoryRequest: Proposed, cpuRequest: Proposed,
    image: string,
    probeType: string,
    probe: ProbeFields,   // an absent field, like a zero one, means "leave unchanged"
    replicas: int)

  /** A proposal written out to be remembered; one restored from storage may no longer decode. */
  datatype Blob = Encoded(action: Action) | Garbage(text: string)

  datatype ProbeInfo = ProbeInfo(
    initialDelaySeconds: int, periodSeconds: int, timeoutSeconds: int, failureThreshold: int)
  {
    function Field(f: ProbeField): int {
      match f
      case InitialDelaySeconds => initialDelaySeconds
      case PeriodSeconds => periodSeconds
      case TimeoutSeconds => timeoutSeconds
      case FailureThreshold => failureThreshold
    }

    /** A strategic merge: the given fields replace the probe's, the rest stay. */
    function Merge(fields: ProbeFields): ProbeInfo {
      ProbeInfo(
        if InitialDelaySeconds in fields then fields[InitialDelaySeconds] else initialDelaySeconds,
        if PeriodSeconds in fields then fields[PeriodSeconds] else periodSeconds,
        if TimeoutSeconds in fields then fields[TimeoutSeconds] else timeoutSeconds,
        if FailureThreshold in fields then fields[FailureThreshold] else failureThreshold)
    }
  }

  /** One container: as the evidence shows it, and as a controller's pod template holds it. */
  datatype Container = Container(
    image: string, limits: Resources, requests: Resources, probes: map<ProbeType, ProbeInfo>)

  datatype ContainerSummary = ContainerSummary(name: string, spec: Container)

  datatype Claim = Claim(name: string, bound: bool, missing: bool)

  datatype NodeSummary = NodeSummary(allocatable: Resources)

  datatype Bundle = Bundle(
    problem: Detect.Problem,
    ownerKind: string,
    containers: seq<ContainerSummary>,
    node: Option<NodeSummary>,
    replicas: int,
    capacity: Option<Capacity.Snapshot>,
    podRequests: Capacity.Requests,
    load: Option<Capacity.Load>,
    claims: seq<Claim>,
    autoscaler: Option<string>)

  datatype Options = Options(
    maxMemory: int, maxCpu: int,
    maxMultiplier: real,
    minConfidence: string,
    allowRequests: bool,
    maxProbe: ProbeFields,   // an absent cap, like a zero one, is no cap
    maxReplicas: int,
    autoReplicas: bool,
    targetCpuRatio: real,
    pvcAutoCreate: bool, pvcDefaultSize: Proposed, pvcStorageClass: string, pvcMaxSize: int,
    allowedKinds: set<Detect.Kind>,
    denyNamespaces: set<string>,
    allowNamespaces: set<string>)

  datatype ClaimSpec = ClaimSpec(namespace: string, name: string, size: int, storageClass: string, accessMode: string)

  /** One struct for every kind of plan; only the fields of its kind are filled in. */
  datatype Plan = Plan(
    kind: ActionKind,
    namespace: string, pod: string, container: string,
    limits: Resources, requests: Resources,
    image: string,
    probeType: ProbeType, probe: ProbeFields,
    replicas: int,
    claim: Option<ClaimSpec>)

  /** Why a proposal is not acted on. */
  datatype Refusal =
    | NothingProposed | NotForStorageFault | OnlyForStorageFault | KindNotAllowed
    | LowConfidence | NamespaceDenied | NamespaceNotAllowed | UnknownKind
    | CreateDisabled | CreateNeedsAllowlist | NoClaimMissing | ManyClaimsMissing | SharedClaim | BadClaimSize
    | ClaimNotBound | NoClaimEvidence | NoController
    | NoContainer | ContainerNotFound
    | BadQuantity | NotPositive | AboveCap | Shrinks | GrowsTooFast
    | RequestsDisabled | DoesNotFit | ExceedsNode | NoChange
    | NoImage | CurrentImageUnknown | OtherRepository | NotPinned | MutableTag | SameImage
    | BadProbeType | NoSuchProbe | Tightens | ProbeAboveCap | NoLoosening
    | ScalingDisabled | OwnedByAutoscaler | ReplicasUnknown | NoLoad | TargetNotComputable(why: Capacity.NotComputable)
    | NotAScaleUp | CapacityUnknown | NoRoom | AboveMultiplier | AboveReplicaCap | TrimmedAway

  function EmptyPlan(kind: ActionKind, b: Bundle): Plan {
    Plan(kind, b.problem.namespace, b.problem.pod, "", map[], map[], "", NoProbe, map[], 0, None)
  }
}
