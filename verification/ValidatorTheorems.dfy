/** What an accepted plan guarantees, whatever the model proposed. */
module ValidatorTheorems {
  import opened Prelude
  import opened HealTypes
  import opened Validator
  import Capacity
  import ImageRef
  import PodRequests

  predicate Accepts(b: Bundle, confidence: string, a: Action, opts: Options, p: Plan) {
    Validate(b, confidence, a, opts) == Ok(p)
  }

  // ----- Words -----

  /** The text is this lower-case word, in whatever case it is written. */
  predicate Means(text: string, word: string) {
    && |text| == |word|
    && forall i | 0 <= i < |word| ::
         text[i] == word[i] || ('A' <= text[i] <= 'Z' && text[i] as int + 32 == word[i] as int)
  }

  lemma MeansExact(text: string, word: string)
    requires forall i | 0 <= i < |word| :: 'a' <= word[i] <= 'z'
    ensures ToLower(text) == word <==> Means(text, word)
  {
    if Means(text, word) {
      forall i | 0 <= i < |word|
        ensures ToLower(text)[i] == word[i]
      {
      }
    }
    if ToLower(text) == word {
      forall i | 0 <= i < |word|
        ensures text[i] == word[i] || ('A' <= text[i] <= 'Z' && text[i] as int + 32 == word[i] as int)
      {
        assert LowerChar(text[i]) == ToLower(text)[i];
      }
    }
  }

  /** The levels are low, medium and high; an unknown level is below them all, and an unset one asks for nothing. */
  predicate Sufficient(have: string, want: string) {
    || want == "" || Means(have, "high")
    || (Means(have, "medium") && !Means(want, "high"))
    || (Means(have, "low") && !Means(want, "high") && !Means(want, "medium"))
    || (!Means(want, "high") && !Means(want, "medium") && !Means(want, "low"))
  }

  lemma ConfidenceExact(have: string, want: string)
    ensures ConfidenceAtLeast(have, want) <==> Sufficient(have, want)
  {
    hide Means, ToLower;
    LevelsMean(have);
    LevelsMean(want);
  }

  lemma LevelsMean(text: string)
    ensures ToLower(text) == "low" <==> Means(text, "low")
    ensures ToLower(text) == "medium" <==> Means(text, "medium")
    ensures ToLower(text) == "high" <==> Means(text, "high")
  {
    MeansExact(text, "low");
    MeansExact(text, "medium");
    MeansExact(text, "high");
  }

  // ----- The container a patch is for -----

  /** The first entry of this name shows this container. */
  ghost predicate Shows(containers: seq<ContainerSummary>, name: string, c: Container) {
    exists i :: 0 <= i < |containers| && containers[i].name == name && containers[i].spec == c
      && forall j | 0 <= j < i :: containers[j].name != name
  }

  lemma {:induction false} FindContainerExact(containers: seq<ContainerSummary>, name: string, c: Container)
    ensures FindContainer(containers, name) == Some(c) <==> Shows(containers, name, c)
    ensures FindContainer(containers, name) == None <==> forall i | 0 <= i < |containers| :: containers[i].name != name
  {
    if containers != [] {
      var others := containers[1..];
      FindContainerExact(others, name, c);
      assert forall i | 0 < i < |containers| :: containers[i] == others[i - 1];
      if containers[0].name != name {
        if Shows(others, name, c) {
          var i :| 0 <= i < |others| && others[i].name == name && others[i].spec == c
            && forall j | 0 <= j < i :: others[j].name != name;
          assert containers[i + 1].name == name && forall j | 0 <= j < i + 1 :: containers[j].name != name;
        }
        if Shows(containers, name, c) {
          var i :| 0 <= i < |containers| && containers[i].name == name && containers[i].spec == c
            && forall j | 0 <= j < i :: containers[j].name != name;
          assert others[i - 1].name == name && forall j | 0 <= j < i - 1 :: others[j].name != name;
        }
      }
    }
  }

  /** What the evidence shows under this name, if anything. */
  ghost predicate ShownAs(containers: seq<ContainerSummary>, name: string, c: Option<Container>) {
    match c
    case Some(spec) => Shows(containers, name, spec)
    case None => forall i | 0 <= i < |containers| :: containers[i].name != name
  }

  lemma FoundAsShown(containers: seq<ContainerSummary>, name: string, c: Option<Container>)
    ensures ShownAs(containers, name, c) <==> FindContainer(containers, name) == c
  {
    FindContainerExact(containers, name, if c.Some? then c.value else Container("", map[], map[], map[]));
  }

  /** The container the proposal names, or else the problem's, is in the evidence, and looks like this. */
  ghost predicate Targets(b: Bundle, a: Action, name: string, c: Container) {
    && name == (if a.container != "" then a.container else b.problem.container)
    && name != "" && Shows(b.containers, name, c)
  }

  lemma TargetExact(b: Bundle, a: Action, name: string, c: Container)
    ensures Targets(b, a, name, c) <==> name == TargetName(b, a) && Target(b, a) == Ok(c)
  {
    FindContainerExact(b.containers, name, c);
  }

  // ----- Storage faults -----

  /** Exactly one claim entry is missing, and this is its name. */
  ghost predicate OnlyMissing(claims: seq<Claim>, name: string) {
    exists i :: 0 <= i < |claims| && claims[i].missing && claims[i].name == name
      && forall j | 0 <= j < |claims| && claims[j].missing :: j == i
  }

  lemma {:induction false} OneMissingClaim(claims: seq<Claim>, name: string)
    ensures MissingClaims(claims) == [] <==> forall j | 0 <= j < |claims| :: !claims[j].missing
    ensures MissingClaims(claims) == [name] <==> OnlyMissing(claims, name)
  {
    if claims != [] {
      var others := claims[1..];
      OneMissingClaim(others, name);
      assert forall j | 0 < j < |claims| :: claims[j] == others[j - 1];
      if claims[0].missing {
        assert MissingClaims(claims) == [claims[0].name] + MissingClaims(others);
        assert |MissingClaims(claims)| == 1 + |MissingClaims(others)| && MissingClaims(claims)[0] == claims[0].name;
        if MissingClaims(others) == [] {
          assert forall j | 0 <= j < |claims| && claims[j].missing :: j == 0;
        } else {
          var j :| 0 <= j < |others| && others[j].missing;
          assert claims[j + 1].missing;
        }
      } else {
        assert MissingClaims(claims) == MissingClaims(others);
        if OnlyMissing(others, name) {
          var i :| 0 <= i < |others| && others[i].missing && others[i].name == name
            && forall j | 0 <= j < |others| && others[j].missing :: j == i;
          assert claims[i + 1].missing && claims[i + 1].name == name;
          assert forall j | 0 <= j < |claims| && claims[j].missing :: j == i + 1;
        }
        if OnlyMissing(claims, name) {
          var i :| 0 <= i < |claims| && claims[i].missing && claims[i].name == name
            && forall j | 0 <= j < |claims| && claims[j].missing :: j == i;
          assert others[i - 1].missing && others[i - 1].name == name;
          assert forall j | 0 <= j < |others| && others[j].missing :: claims[j + 1].missing;
        }
      }
    }
  }

  /** Exactly when a claim is created, and which: the one that does not exist, of the operator's size. */
  ghost predicate IsClaimCreation(b: Bundle, opts: Options, p: Plan) {
    && opts.pvcAutoCreate && opts.allowNamespaces != {} && b.replicas <= 1
    && opts.pvcDefaultSize.Quantity? && opts.pvcDefaultSize.milli > 0
    && p.claim.Some? && OnlyMissing(b.claims, p.claim.value.name)
    && p == EmptyPlan(CreatePVC, b).(claim := Some(p.claim.value))
    && p.claim.value.namespace == b.problem.namespace
    && p.claim.value.size
         == (if opts.pvcMaxSize == 0 then opts.pvcDefaultSize.milli
             else Min(opts.pvcDefaultSize.milli, opts.pvcMaxSize))
    && p.claim.value.storageClass == opts.pvcStorageClass && p.claim.value.accessMode == "ReadWriteOnce"
  }

  lemma ClaimCreationExact(b: Bundle, opts: Options, p: Plan)
    ensures ValidateCreatePVC(b, opts) == Ok(p) <==> IsClaimCreation(b, opts, p)
  {
    var missing := MissingClaims(b.claims);
    if |missing| == 1 {
      OneMissingClaim(b.claims, missing[0]);
      assert missing == [missing[0]];
    }
    if p.claim.Some? {
      OneMissingClaim(b.claims, p.claim.value.name);
    }
  }

  /** A restart needs a controller, and on a storage fault every claim bound. */
  predicate IsRestart(b: Bundle, p: Plan) {
    && p == EmptyPlan(RestartWorkload, b) && b.ownerKind != ""
    && (b.problem.kind.Storage() ==> b.claims != [] && forall c | c in b.claims :: c.bound)
  }

  /**
   * On a storage fault only two recoveries exist: a restart once every claim is
   * bound, or the creation of the one claim that does not exist, under the size
   * ceiling. Outside a storage fault no claim is ever created.
   */
  lemma StorageFaultRecoveries(b: Bundle, confidence: string, a: Action, opts: Options, p: Plan)
    requires Accepts(b, confidence, a, opts, p)
    ensures b.problem.kind.Storage() ==> p.kind.RestartWorkload? || p.kind.CreatePVC?
    ensures b.problem.kind.Storage() && p.kind.RestartWorkload? ==>
      b.claims != [] && forall c | c in b.claims :: c.bound
    ensures p.kind.CreatePVC? ==>
      && b.problem.kind.Storage() && p.claim.Some?
      && p.claim.value.namespace == b.problem.namespace && b.problem.namespace in opts.allowNamespaces
      && (exists c :: c in b.claims && c.missing && c.name == p.claim.value.name)
      && (forall c, c' | c in b.claims && c' in b.claims && c.missing && c'.missing :: c.name == c'.name)
      && (opts.pvcMaxSize != 0 ==> p.claim.value.size <= opts.pvcMaxSize)
      && (opts.pvcMaxSize >= 0 ==> 0 < p.claim.value.size)
  {
    hide Accepts, Sufficient, IsResourcePatch, IsImagePatch, IsProbePatch, IsScalePlan;
    AcceptedByItsKind(b, confidence, a, opts, p);
    ValidateExact(b, confidence, a, opts, p);
    if p.kind.CreatePVC? {
      var i :| 0 <= i < |b.claims| && b.claims[i].missing && b.claims[i].name == p.claim.value.name
        && forall j | 0 <= j < |b.claims| && b.claims[j].missing :: j == i;
      assert b.claims[i] in b.claims;
    }
  }

  /** The model chooses to create a claim and nothing else about it. */
  lemma CreateIgnoresTheModel(b: Bundle, confidence: string, a: Action, a': Action, opts: Options)
    requires a.kind.CreatePVC? && a'.kind.CreatePVC?
    ensures Validate(b, confidence, a, opts) == Validate(b, confidence, a', opts)
  {
  }

  // ----- The shape of a plan -----

  /** A plan fills in the fields of its own kind, all of them usable, and no other kind's. */
  predicate WellShaped(p: Plan) {
    && (p.image != "" <==> p.kind.PatchImage?)
    && (p.probeType != NoProbe <==> p.kind.PatchProbe?)
    && (p.probe != map[] <==> p.kind.PatchProbe?)
    && (p.replicas != 0 <==> p.kind.ScaleReplicas?) && p.replicas >= 0
    && (p.limits != map[] || p.requests != map[] <==> p.kind.PatchResources?)
    && (p.claim.Some? <==> p.kind.CreatePVC?)
    && (p.container != "" <==> p.kind.PatchImage? || p.kind.PatchProbe? || p.kind.PatchResources?)
  }

  /** The only way to an accepted plan is past the gate and through the validation of its own kind. */
  lemma AcceptedByItsKind(b: Bundle, confidence: string, a: Action, opts: Options, p: Plan)
    requires Accepts(b, confidence, a, opts, p)
    ensures Gate(b, confidence, a, opts).None? && p.kind == a.kind
    ensures p.namespace == b.problem.namespace && p.pod == b.problem.pod
    ensures p.kind.PatchResources? ==> ValidatePatch(b, a, opts) == Ok(p)
    ensures p.kind.RestartWorkload? ==> ValidateRestart(b) == Ok(p)
    ensures p.kind.PatchImage? ==> ValidatePatchImage(b, a) == Ok(p)
    ensures p.kind.PatchProbe? ==> ValidatePatchProbe(b, a, opts) == Ok(p)
    ensures p.kind.ScaleReplicas? ==> ValidateScaleReplicas(b, a, opts) == Ok(p)
    ensures p.kind.CreatePVC? ==> ValidateCreatePVC(b, opts) == Ok(p)
    ensures !p.kind.NoAction? && !p.kind.UnknownAction?
  {
    hide RaisedLimits, RaisedRequests, Schedulable, LoosenedFields, ScaleTarget, PolicyBound, Capacity.FitCount,
      MissingClaims, BoundedClaimSize, BoundedImage, FindContainer, ConfidenceAtLeast;
  }

  lemma AcceptedPlanIsWellShaped(b: Bundle, confidence: string, a: Action, opts: Options, p: Plan)
    requires Accepts(b, confidence, a, opts, p)
    ensures p.kind == a.kind && WellShaped(p)
    ensures p.namespace == b.problem.namespace && p.pod == b.problem.pod
    ensures p.container != "" ==> exists c :: Targets(b, a, p.container, c)
  {
    hide Accepts, IsBoundedRaise, IsLoosening, IsScaleTarget, PolicyAllows, Capacity.CanPlace, Sufficient,
      ImageRef.Parse, OnlyMissing, Shows, Means, IsSchedulable;
    ValidateExact(b, confidence, a, opts, p);
  }

  // ----- Resource patches -----

  /** A value the operator's bounds allow over the current one. */
  predicate BoundedRaise(current: Option<int>, want: int, cap: int, multiplier: real) {
    && want > 0
    && (cap != 0 ==> want <= cap)
    && (current.Some? ==> want >= current.value)
    && (current.Some? && current.value != 0 && multiplier > 0.0 ==> GrowsWithin(current.value, multiplier, want))
  }

  predicate GrowsWithin(current: int, multiplier: real, want: int) {
    want as real <= current as real * multiplier
  }

  /** Rounding the ceiling toward zero lets no value through that growth does not, and holds none back. */
  lemma CeilingExact(current: int, multiplier: real, want: int)
    requires want > 0
    ensures want <= Ceiling(current, multiplier) <==> GrowsWithin(current, multiplier, want)
  {
    TruncReaches(current as real * multiplier, want);
  }

  lemma TruncReaches(x: real, n: int)
    requires n > 0
    ensures n <= Trunc(x) <==> n as real <= x
  {
  }

  predicate RaisedAsProposed(raised: Resources, res: ResourceName, current: Resources, proposed: Proposed,
                             cap: int, multiplier: real)
  {
    if proposed.Unset? then res !in raised
    else
      && res in raised && proposed == Quantity(raised[res])
      && BoundedRaise(Get(current, res), raised[res], cap, multiplier)
  }

  /** `raised` is exactly what was proposed for memory and CPU, every value of it a bounded raise. */
  predicate IsBoundedRaise(raised: Resources, current: Resources, memory: Proposed, cpu: Proposed, opts: Options) {
    && raised.Keys <= {Memory, Cpu}
    && RaisedAsProposed(raised, Memory, current, memory, opts.maxMemory, opts.maxMultiplier)
    && RaisedAsProposed(raised, Cpu, current, cpu, opts.maxCpu, opts.maxMultiplier)
  }

  lemma BoundedIncreaseExact(current: Option<int>, proposed: Proposed, cap: int, multiplier: real, v: int)
    ensures BoundedIncrease(current, proposed, cap, multiplier) == Ok(v)
      <==> proposed == Quantity(v) && BoundedRaise(current, v, cap, multiplier)
  {
    hide Ceiling, GrowsWithin;
    if current.Some? && proposed.Quantity? && proposed.milli > 0 {
      CeilingExact(current.value, multiplier, proposed.milli);
    }
  }

  lemma OneRaise(accepted: Resources, res: ResourceName, current: Resources, proposed: Proposed, opts: Options,
                 m: Resources)
    requires res !in accepted
    ensures AddRaise(accepted, res, current, proposed, opts) == Ok(m)
      <==> RaisedAsProposed(m, res, current, proposed, CapOf(opts, res), opts.maxMultiplier) && m - {res} == accepted
  {
    hide BoundedRaise, Ceiling;
    if proposed.Quantity? {
      BoundedIncreaseExact(Get(current, res), proposed, CapOf(opts, res), opts.maxMultiplier, proposed.milli);
    }
    if m - {res} == accepted {
      assert res !in m ==> m == accepted;
      assert res in m ==> m == accepted[res := m[res]];
    }
    assert accepted - {res} == accepted;
    if proposed.Quantity? {
      assert accepted[res := proposed.milli] - {res} == accepted;
    }
  }

  lemma TwoRaises(m: Resources, current: Resources, memory: Proposed, cpu: Proposed, opts: Options)
    ensures (var withMemory := AddRaise(map[], Memory, current, memory, opts);
             withMemory.Ok? && AddRaise(withMemory.value, Cpu, current, cpu, opts) == Ok(m))
      <==> IsBoundedRaise(m, current, memory, cpu, opts)
  {
    var none: Resources := map[];
    var afterMemory := m - {Cpu};
    OneRaise(none, Memory, current, memory, opts, afterMemory);
    assert (afterMemory - {Memory}).Keys == m.Keys - {Memory, Cpu};
    assert (afterMemory - {Memory}).Keys == {} <==> afterMemory - {Memory} == none;
    var first := AddRaise(none, Memory, current, memory, opts);
    if first.Ok? {
      OneRaise(none, Memory, current, memory, opts, first.value);
      assert Cpu !in first.value;
      OneRaise(first.value, Cpu, current, cpu, opts, m);
    }
  }

  /** A quantity in whole units, a started unit counting as one. */
  lemma WholeUnitsExact(milli: int, n: int)
    ensures n == WholeUnits(milli) <==> 1000 * (n - 1) < milli <= 1000 * n
  {
  }

  /** The pod's total with the raised requests in place of those the container has. */
  predicate IsProjection(b: Bundle, cur: Container, requests: Resources, total: Capacity.Requests) {
    && total.cpuMilli == b.podRequests.cpuMilli
         + (if Cpu !in requests then 0
            else if Cpu in cur.requests then requests[Cpu] - cur.requests[Cpu]
            else requests[Cpu])
    && total.memBytes == b.podRequests.memBytes
         + (if Memory !in requests then 0
            else if Memory in cur.requests then WholeUnits(requests[Memory]) - WholeUnits(cur.requests[Memory])
            else WholeUnits(requests[Memory]))
  }

  /** With a snapshot some schedulable node takes the raised pod; without one, its node has each request to allocate. */
  ghost predicate IsSchedulable(b: Bundle, cur: Container, requests: Resources) {
    match b.capacity
    case Some(s) =>
      exists total, i :: IsProjection(b, cur, requests, total)
        && 0 <= i < |s.nodes| && s.nodes[i].schedulable && Capacity.NodeTakes(s, s.nodes[i], total, 1)
    case None =>
      b.node.Some? ==> forall res | res in requests && res in b.node.value.allocatable ::
        requests[res] <= b.node.value.allocatable[res]
  }

  lemma SchedulableExact(b: Bundle, cur: Container, requests: Resources)
    ensures Schedulable(b, cur, requests).None? <==> IsSchedulable(b, cur, requests)
  {
    hide Capacity.NodeTakes;
    var total := ProjectedPodRequests(b, cur, requests);
    assert forall other | IsProjection(b, cur, requests, other) :: other == total;
    assert IsProjection(b, cur, requests, total);
    if b.capacity.Some? {
      Capacity.FitsMeansSomeNode(b.capacity.value, total);
    }
  }

  /** Exactly when a resource patch is accepted, and as what. */
  ghost predicate IsResourcePatch(b: Bundle, a: Action, opts: Options, p: Plan) {
    exists cur ::
      && Targets(b, a, p.container, cur)
      && IsBoundedRaise(p.limits, cur.limits, a.memoryLimit, a.cpuLimit, opts)
      && IsBoundedRaise(p.requests, cur.requests, a.memoryRequest, a.cpuRequest, opts)
      && (p.requests != map[] ==> opts.allowRequests && IsSchedulable(b, cur, p.requests))
      && (p.limits != map[] || p.requests != map[])
      && p == EmptyPlan(PatchResources, b).(container := p.container, limits := p.limits, requests := p.requests)
  }

  lemma ResourcePatchExact(b: Bundle, a: Action, opts: Options, p: Plan)
    ensures ValidatePatch(b, a, opts) == Ok(p) <==> IsResourcePatch(b, a, opts, p)
  {
    hide Targets, BoundedRaise, IsSchedulable, Schedulable;
    var found := Target(b, a);
    forall c {
      TargetExact(b, a, p.container, c);
    }
    if found.Ok? {
      var cur := found.value;
      SchedulableExact(b, cur, p.requests);
      TwoRaises(p.limits, cur.limits, a.memoryLimit, a.cpuLimit, opts);
      TwoRaises(p.requests, cur.requests, a.memoryRequest, a.cpuRequest, opts);
      if RaisedLimits(cur, a, opts).Ok? {
        TwoRaises(RaisedLimits(cur, a, opts).value, cur.limits, a.memoryLimit, a.cpuLimit, opts);
      }
      if RaisedRequests(cur, a, opts).Ok? {
        TwoRaises(RaisedRequests(cur, a, opts).value, cur.requests, a.memoryRequest, a.cpuRequest, opts);
      }
    }
  }

  // ----- A request raise is checked conservatively -----

  /** The container evidence of app container i of the pod the bundle describes. */
  predicate DescribesPod(b: Bundle, cur: Container, pod: PodRequests.PodSpec, i: nat) {
    && i < |pod.containers|
    && b.podRequests == PodRequests.EffectiveRequests(pod)
    && pod.containers[i].cpuMilli == ValueOr0(cur.requests, Cpu)
    && pod.containers[i].memBytes == WholeUnits(ValueOr0(cur.requests, Memory))
  }

  predicate AppliesRequests(c: PodRequests.Container, cur: Container, requests: Resources) {
    && c.cpuMilli == ValueOr0(cur.requests + requests, Cpu)
    && c.memBytes == WholeUnits(ValueOr0(cur.requests + requests, Memory))
  }

  lemma WholeUnitsMonotone(x: int, y: int)
    requires x <= y
    ensures WholeUnits(x) <= WholeUnits(y)
  {
  }

  /** The projection never understates what the raised pod really needs. */
  lemma ProjectionIsConservative(b: Bundle, cur: Container, requests: Resources, opts: Options, a: Action,
                                 pod: PodRequests.PodSpec, i: nat, c: PodRequests.Container)
    requires DescribesPod(b, cur, pod, i) && AppliesRequests(c, cur, requests)
    requires IsBoundedRaise(requests, cur.requests, a.memoryRequest, a.cpuRequest, opts)
    ensures var needed := PodRequests.EffectiveRequests(PodRequests.WithContainer(pod, i, c));
      var projected := ProjectedPodRequests(b, cur, requests);
      needed.cpuMilli <= projected.cpuMilli && needed.memBytes <= projected.memBytes
  {
    assert ValueOr0(cur.requests + requests, Cpu)
        == if Cpu in requests then requests[Cpu] else ValueOr0(cur.requests, Cpu);
    assert ValueOr0(cur.requests + requests, Memory)
        == if Memory in requests then requests[Memory] else ValueOr0(cur.requests, Memory);
    assert ValueOr0(cur.requests, Memory) <= ValueOr0(cur.requests + requests, Memory);
    WholeUnitsMonotone(ValueOr0(cur.requests, Memory), ValueOr0(cur.requests + requests, Memory));
    PodRequests.RaiseCostsAtMostItself(pod, i, c, PodRequests.Cpu);
    PodRequests.RaiseCostsAtMostItself(pod, i, c, PodRequests.Memory);
  }

  /** With a snapshot at hand, the pod as it will really be after an accepted raise fits on one schedulable node. */
  lemma RaisedPodFitsOnANode(b: Bundle, confidence: string, a: Action, opts: Options, p: Plan,
                             cur: Container, pod: PodRequests.PodSpec, i: nat, c: PodRequests.Container)
    requires Accepts(b, confidence, a, opts, p) && p.kind.PatchResources? && p.requests != map[]
    requires b.capacity.Some?
    requires Shows(b.containers, p.container, cur)
    requires DescribesPod(b, cur, pod, i) && AppliesRequests(c, cur, p.requests)
    ensures var s := b.capacity.value;
      exists n :: 0 <= n < |s.nodes| && s.nodes[n].schedulable
        && Capacity.NodeTakes(s, s.nodes[n], PodRequests.EffectiveRequests(PodRequests.WithContainer(pod, i, c)), 1)
  {
    AcceptedByItsKind(b, confidence, a, opts, p);
    ResourcePatchExact(b, a, opts, p);
    FindContainerExact(b.containers, p.container, cur);
    TargetExact(b, a, p.container, cur);
    ProjectionIsConservative(b, cur, p.requests, opts, a, pod, i, c);
    var raised := PodRequests.EffectiveRequests(PodRequests.WithContainer(pod, i, c));
    Capacity.SmallerFitsMore(b.capacity.value, raised, ProjectedPodRequests(b, cur, p.requests));
    Capacity.FitsMeansSomeNode(b.capacity.value, raised);
  }

  // ----- Image corrections -----

  /** Another pinned, immutable version of the same repository. */
  predicate IsVersionChange(current: string, image: string) {
    var was, now := ImageRef.Parse(current), ImageRef.Parse(image);
    && current != "" && image != ""
    && now.repo == was.repo
    && (now.tag != "" || now.digest != "") && now.tag != "latest"
    && (now.tag, now.digest) != (was.tag, was.digest)
  }

  ghost predicate IsImagePatch(b: Bundle, a: Action, p: Plan) {
    exists cur ::
      && Targets(b, a, p.container, cur) && IsVersionChange(cur.image, a.image)
      && p == EmptyPlan(PatchImage, b).(container := p.container, image := a.image)
  }

  lemma PatchImageExact(b: Bundle, a: Action, p: Plan)
    ensures ValidatePatchImage(b, a) == Ok(p) <==> IsImagePatch(b, a, p)
  {
    hide Targets;
    forall c {
      TargetExact(b, a, p.container, c);
    }
    var found := FindContainer(b.containers, TargetName(b, a));
    if found.Some? {
      var cur, next := ImageRef.Parse(found.value.image), ImageRef.Parse(a.image);
      assert next.tag == cur.tag && next.digest == cur.digest <==> (next.tag, next.digest) == (cur.tag, cur.digest);
    }
  }

  /** An accepted image keeps the repository and pins a different, immutable version of it. */
  lemma ImageStaysInRepository(b: Bundle, confidence: string, a: Action, opts: Options, p: Plan)
    requires Accepts(b, confidence, a, opts, p) && p.kind.PatchImage?
    ensures p.image == a.image
    ensures exists c :: Shows(b.containers, p.container, c) && IsVersionChange(c.image, p.image)
  {
    AcceptedByItsKind(b, confidence, a, opts, p);
    PatchImageExact(b, a, p);
  }

  // ----- Probe loosening -----

  predicate LoosenedField(fields: ProbeFields, f: ProbeField, cur: ProbeInfo, a: Action, opts: Options) {
    if f in fields then
      && f in a.probe && fields[f] == a.probe[f] && fields[f] != 0 && fields[f] > cur.Field(f)
      && (f in opts.maxProbe && opts.maxProbe[f] > 0 ==> fields[f] <= opts.maxProbe[f])
    else f in a.probe && a.probe[f] != 0 ==> a.probe[f] == cur.Field(f)
  }

  predicate NamesProbe(text: string, pt: ProbeType) {
    (pt.Liveness? && Means(text, "liveness")) || (pt.Readiness? && Means(text, "readiness"))
  }

  lemma ProbeTypeExact(text: string, pt: ProbeType)
    ensures NamesProbe(text, pt) <==> pt != NoProbe && pt == ParseProbeType(text)
  {
    MeansExact(text, "liveness");
    MeansExact(text, "readiness");
    assert |"liveness"| != |"readiness"|;
  }

  /** `fields` is exactly what was proposed beyond the current timing, all of it looser and within its cap. */
  ghost predicate IsLoosening(fields: ProbeFields, cur: ProbeInfo, a: Action, opts: Options) {
    forall f :: LoosenedField(fields, f, cur, a, opts)
  }

  lemma EveryField(f: ProbeField)
    ensures f in {InitialDelaySeconds, PeriodSeconds, TimeoutSeconds, FailureThreshold}
  {
  }

  lemma OneField(fields: ProbeFields, f: ProbeField, cur: ProbeInfo, a: Action, opts: Options, out: ProbeFields)
    requires f !in fields
    ensures AddField(fields, f, cur, a, opts) == Ok(out)
      <==> LoosenedField(out, f, cur, a, opts) && out - {f} == fields
  {
    var proposed := FieldOr0(a.probe, f);
    if out - {f} == fields {
      assert f !in out ==> out == fields;
      assert f in out ==> out == fields[f := out[f]];
    }
    assert fields - {f} == fields && fields[f := proposed] - {f} == fields;
  }

  lemma LooseningExact(cur: ProbeInfo, a: Action, opts: Options, fields: ProbeFields)
    ensures LoosenedFields(cur, a, opts) == Ok(fields) <==> IsLoosening(fields, cur, a, opts)
  {
    var none: ProbeFields := map[];
    // the fields accepted after each of the four steps
    var g3 := fields - {FailureThreshold};
    var g2 := g3 - {TimeoutSeconds};
    var g1 := g2 - {PeriodSeconds};
    forall f
      ensures f !in g1 - {InitialDelaySeconds}
    {
      EveryField(f);
    }
    OneField(none, InitialDelaySeconds, cur, a, opts, g1);
    OneField(g1, PeriodSeconds, cur, a, opts, g2);
    OneField(g2, TimeoutSeconds, cur, a, opts, g3);
    OneField(g3, FailureThreshold, cur, a, opts, fields);
    LoosenedFieldIsLocal(fields, g1, g2, g3, cur, a, opts);
    if LoosenedFields(cur, a, opts) == Ok(fields) {
      LoosenedStepsAreRestrictions(cur, a, opts, fields);
    }
  }

  /** Whether one field was loosened does not depend on the fields after it. */
  lemma LoosenedFieldIsLocal(fields: ProbeFields, g1: ProbeFields, g2: ProbeFields, g3: ProbeFields,
                             cur: ProbeInfo, a: Action, opts: Options)
    requires g3 == fields - {FailureThreshold} && g2 == g3 - {TimeoutSeconds} && g1 == g2 - {PeriodSeconds}
    ensures IsLoosening(fields, cur, a, opts) <==>
      && LoosenedField(g1, InitialDelaySeconds, cur, a, opts) && LoosenedField(g2, PeriodSeconds, cur, a, opts)
      && LoosenedField(g3, TimeoutSeconds, cur, a, opts) && LoosenedField(fields, FailureThreshold, cur, a, opts)
  {
    assert LoosenedField(g1, InitialDelaySeconds, cur, a, opts)
        == LoosenedField(fields, InitialDelaySeconds, cur, a, opts);
    assert LoosenedField(g2, PeriodSeconds, cur, a, opts) == LoosenedField(fields, PeriodSeconds, cur, a, opts);
    assert LoosenedField(g3, TimeoutSeconds, cur, a, opts) == LoosenedField(fields, TimeoutSeconds, cur, a, opts);
    forall f
      ensures LoosenedField(fields, f, cur, a, opts)
        || f in {InitialDelaySeconds, PeriodSeconds, TimeoutSeconds, FailureThreshold}
    {
      EveryField(f);
    }
  }

  lemma LoosenedStepsAreRestrictions(cur: ProbeInfo, a: Action, opts: Options, fields: ProbeFields)
    requires LoosenedFields(cur, a, opts) == Ok(fields)
    ensures IsLoosening(fields, cur, a, opts)
  {
    var none: ProbeFields := map[];
    var f1 := AddField(none, InitialDelaySeconds, cur, a, opts).value;
    var f2 := AddField(f1, PeriodSeconds, cur, a, opts).value;
    var f3 := AddField(f2, TimeoutSeconds, cur, a, opts).value;
    OneField(none, InitialDelaySeconds, cur, a, opts, f1);
    OneField(f1, PeriodSeconds, cur, a, opts, f2);
    OneField(f2, TimeoutSeconds, cur, a, opts, f3);
    OneField(f3, FailureThreshold, cur, a, opts, fields);
    LoosenedFieldIsLocal(fields, f1, f2, f3, cur, a, opts);
  }

  /** Exactly when a probe patch is accepted, and as what. */
  ghost predicate IsProbePatch(b: Bundle, a: Action, opts: Options, p: Plan) {
    exists cur ::
      && Targets(b, a, p.container, cur)
      && NamesProbe(a.probeType, p.probeType) && p.probeType in cur.probes
      && IsLoosening(p.probe, cur.probes[p.probeType], a, opts) && p.probe != map[]
      && p == EmptyPlan(PatchProbe, b).(container := p.container, probeType := p.probeType, probe := p.probe)
  }

  lemma PatchProbeExact(b: Bundle, a: Action, opts: Options, p: Plan)
    ensures ValidatePatchProbe(b, a, opts) == Ok(p) <==> IsProbePatch(b, a, opts, p)
  {
    hide Targets, NamesProbe, ParseProbeType, IsLoosening;
    var cur, pt := Target(b, a), ParseProbeType(a.probeType);
    ProbeTypeExact(a.probeType, p.probeType);
    forall c {
      TargetExact(b, a, p.container, c);
    }
    if cur.Ok? && pt != NoProbe && pt in cur.value.probes {
      LooseningExact(cur.value.probes[pt], a, opts, p.probe);
    }
  }

  lemma ProbeOnlyLoosens(b: Bundle, confidence: string, a: Action, opts: Options, p: Plan)
    requires Accepts(b, confidence, a, opts, p) && p.kind.PatchProbe?
    ensures exists cur ::
      && Shows(b.containers, p.container, cur)
      && p.probeType in cur.probes && NamesProbe(a.probeType, p.probeType)
      && IsLoosening(p.probe, cur.probes[p.probeType], a, opts)
  {
    AcceptedByItsKind(b, confidence, a, opts, p);
    PatchProbeExact(b, a, opts, p);
  }

  // ----- Scaling -----

  /** `n` replicas respect the target and every bound, and the new pods have somewhere to go. */
  ghost predicate ScaleAllowed(b: Bundle, opts: Options, target: int, n: int) {
    && b.capacity.Some?
    && b.replicas < n <= target
    && n <= MAX_INT32
    && PolicyAllows(b.replicas, opts, n)
    && Capacity.CanPlace(b.capacity.value, b.podRequests, n - b.replicas)
  }

  predicate PolicyAllows(current: int, opts: Options, n: int) {
    && (opts.maxMultiplier > 0.0 ==> n as real <= current as real * opts.maxMultiplier)
    && (opts.maxReplicas > 0 ==> n <= opts.maxReplicas)
  }

  lemma StepLimit(current: int, multiplier: real, n: int)
    requires current > 0 && multiplier > 0.0
    ensures n <= Ceiling(current, multiplier) <==> n as real <= current as real * multiplier
  {
    assert current as real * multiplier >= 0.0;
  }

  /**
   * Policy never raises the target it is given, which the cluster's room has already
   * trimmed; it refuses a proposed one it would have to change, and changes a derived
   * one least.
   */
  lemma PolicyBoundExact(target: int, current: int, opts: Options, n: int)
    requires current > 0
    ensures var v := PolicyBound(target, current, opts);
      && (v.Ok? ==> v.value <= target && PolicyAllows(current, opts, v.value))
      && (v.Ok? && !opts.autoReplicas ==> v.value == target)
      && (v.Err? <==> !opts.autoReplicas && !PolicyAllows(current, opts, target))
      && (opts.autoReplicas && n <= target && PolicyAllows(current, opts, n) ==> n <= v.value)
  {
    if opts.maxMultiplier > 0.0 {
      var v := PolicyBound(target, current, opts);
      StepLimit(current, opts.maxMultiplier, n);
      StepLimit(current, opts.maxMultiplier, target);
      if v.Ok? {
        StepLimit(current, opts.maxMultiplier, v.value);
      }
    }
  }

  /** Every accepted scale-up respects every bound set, in either mode, and its new pods can be placed. */
  lemma AcceptedScaleIsAllowed(b: Bundle, confidence: string, a: Action, opts: Options, p: Plan)
    requires Accepts(b, confidence, a, opts, p) && p.kind.ScaleReplicas?
    ensures b.autoscaler.None?
    ensures ScaleTarget(b, a, opts).Ok? && ScaleAllowed(b, opts, ScaleTarget(b, a, opts).value, p.replicas)
  {
    AcceptedByItsKind(b, confidence, a, opts, p);
    ScaleExact(b, a, opts, p.replicas);
    var fit := Capacity.FitCount(b.capacity.value, b.podRequests);
    var trimmed := Min(ScaleTarget(b, a, opts).value, AddClamped(b.replicas, fit));
    PolicyBoundExact(trimmed, b.replicas, opts, p.replicas);
    Capacity.FitCountIsOptimal(b.capacity.value, b.podRequests, p.replicas - b.replicas);
  }

  /** The decision in terms of the room there is and the policy bound on the trimmed target. */
  lemma ScaleExact(b: Bundle, a: Action, opts: Options, n: int)
    ensures ValidateScaleReplicas(b, a, opts) == Ok(EmptyPlan(ScaleReplicas, b).(replicas := n)) <==>
      && (opts.autoReplicas || opts.maxReplicas > 0) && b.autoscaler.None? && b.replicas > 0
      && ScaleTarget(b, a, opts).Ok? && ScaleTarget(b, a, opts).value > b.replicas
      && b.capacity.Some? && b.replicas < n
      && (var trimmed := Min(ScaleTarget(b, a, opts).value,
                             AddClamped(b.replicas, Capacity.FitCount(b.capacity.value, b.podRequests)));
          PolicyBound(trimmed, b.replicas, opts) == Ok(n) && n <= trimmed)
    ensures ValidateScaleReplicas(b, a, opts).Ok? ==>
      ValidateScaleReplicas(b, a, opts).value
        == EmptyPlan(ScaleReplicas, b).(replicas := ValidateScaleReplicas(b, a, opts).value.replicas)
  {
    if b.replicas > 0 && ScaleTarget(b, a, opts).Ok? && b.capacity.Some? {
      var fit := Capacity.FitCount(b.capacity.value, b.podRequests);
      var trimmed := Min(ScaleTarget(b, a, opts).value, AddClamped(b.replicas, fit));
      PolicyBoundExact(trimmed, b.replicas, opts, n);
    }
  }

  /** A derived target is trimmed to the greatest allowed count; it is refused only when no count is allowed. */
  lemma AutoScaleIsGreatestAllowed(b: Bundle, a: Action, opts: Options, n: int)
    requires opts.autoReplicas && b.autoscaler.None? && b.replicas > 0 && ScaleTarget(b, a, opts).Ok?
    ensures ScaleAllowed(b, opts, ScaleTarget(b, a, opts).value, n) ==>
      var v := ValidateScaleReplicas(b, a, opts);
      v.Ok? && n <= v.value.replicas
  {
    if ScaleAllowed(b, opts, ScaleTarget(b, a, opts).value, n) {
      Capacity.FitCountIsOptimal(b.capacity.value, b.podRequests, n - b.replicas);
      var fit := Capacity.FitCount(b.capacity.value, b.podRequests);
      var trimmed := Min(ScaleTarget(b, a, opts).value, AddClamped(b.replicas, fit));
      PolicyBoundExact(trimmed, b.replicas, opts, n);
      ScaleExact(b, a, opts, PolicyBound(trimmed, b.replicas, opts).value);
    }
  }

  /** The target a scale-up aims for: the proposal, or the least relieving count unless the proposal is more modest. */
  predicate IsScaleTarget(b: Bundle, a: Action, opts: Options, target: int) {
    if !opts.autoReplicas then target == a.replicas
    else
      && b.load.Some? && Capacity.EnoughEvidence(b.load.value, opts.targetCpuRatio)
      && var modest := b.replicas < a.replicas && !Capacity.Relieves(b.load.value, opts.targetCpuRatio, a.replicas);
         if modest then target == a.replicas
         else Capacity.Relieves(b.load.value, opts.targetCpuRatio, target)
              && !Capacity.Relieves(b.load.value, opts.targetCpuRatio, target - 1)
  }

  lemma ScaleTargetExact(b: Bundle, a: Action, opts: Options, target: int)
    ensures ScaleTarget(b, a, opts) == Ok(target) <==> IsScaleTarget(b, a, opts, target)
  {
    if opts.autoReplicas && b.load.Some? {
      Capacity.TargetReplicasIsLeast(b.load.value, opts.targetCpuRatio, a.replicas);
      Capacity.TargetReplicasIsLeast(b.load.value, opts.targetCpuRatio, target);
      Capacity.TargetReplicasIsLeast(b.load.value, opts.targetCpuRatio, target - 1);
    }
  }

  /** The new pods of a scale-up to `n`, within the target and 32 bits, have somewhere to go. */
  ghost predicate Placeable(b: Bundle, target: int, n: int) {
    b.capacity.Some? && b.replicas < n <= target && n <= MAX_INT32
    && Capacity.CanPlace(b.capacity.value, b.podRequests, n - b.replicas)
  }

  /**
   * Exactly when a scale-up is accepted, and to what: the greatest placeable count,
   * and with a derived target the greatest that policy allows as well.
   */
  ghost predicate IsScaleUp(b: Bundle, a: Action, opts: Options, n: int) {
    && (opts.autoReplicas || opts.maxReplicas > 0) && b.autoscaler.None? && b.replicas > 0
    && exists target ::
         && IsScaleTarget(b, a, opts, target)
         && Placeable(b, target, n) && PolicyAllows(b.replicas, opts, n)
         && forall m | Placeable(b, target, m) && (opts.autoReplicas ==> PolicyAllows(b.replicas, opts, m)) :: m <= n
  }

  lemma PlaceableExact(b: Bundle, target: int, n: int)
    requires b.capacity.Some?
    ensures Placeable(b, target, n) <==>
      b.replicas < n <= Min(target, AddClamped(b.replicas, Capacity.FitCount(b.capacity.value, b.podRequests)))
  {
    if b.replicas < n {
      Capacity.FitCountIsOptimal(b.capacity.value, b.podRequests, n - b.replicas);
    }
  }

  lemma ScaleUpIsGreatest(b: Bundle, a: Action, opts: Options, n: int, target: int)
    requires ValidateScaleReplicas(b, a, opts) == Ok(EmptyPlan(ScaleReplicas, b).(replicas := n))
    requires ScaleTarget(b, a, opts) == Ok(target)
    ensures b.capacity.Some? && Placeable(b, target, n) && PolicyAllows(b.replicas, opts, n)
    ensures forall m | Placeable(b, target, m) && (opts.autoReplicas ==> PolicyAllows(b.replicas, opts, m)) :: m <= n
  {
    ScaleExact(b, a, opts, n);
    var trimmed := Min(target, AddClamped(b.replicas, Capacity.FitCount(b.capacity.value, b.podRequests)));
    PlaceableExact(b, target, n);
    PolicyBoundExact(trimmed, b.replicas, opts, n);
    forall m | Placeable(b, target, m) && (opts.autoReplicas ==> PolicyAllows(b.replicas, opts, m))
      ensures m <= n
    {
      PlaceableExact(b, target, m);
      PolicyBoundExact(trimmed, b.replicas, opts, m);
    }
  }

  lemma GreatestIsScaleUp(b: Bundle, a: Action, opts: Options, n: int)
    requires IsScaleUp(b, a, opts, n)
    ensures ValidateScaleReplicas(b, a, opts) == Ok(EmptyPlan(ScaleReplicas, b).(replicas := n))
  {
    var target :|
      && IsScaleTarget(b, a, opts, target)
      && Placeable(b, target, n) && PolicyAllows(b.replicas, opts, n)
      && forall m | Placeable(b, target, m) && (opts.autoReplicas ==> PolicyAllows(b.replicas, opts, m)) :: m <= n;
    ScaleTargetExact(b, a, opts, target);
    var trimmed := Min(target, AddClamped(b.replicas, Capacity.FitCount(b.capacity.value, b.podRequests)));
    PlaceableExact(b, target, n);
    PlaceableExact(b, target, trimmed);
    PolicyBoundExact(trimmed, b.replicas, opts, n);
    var bounded := PolicyBound(trimmed, b.replicas, opts);
    if opts.autoReplicas {
      PlaceableExact(b, target, bounded.value);
    }
  }

  lemma ScaleUpExact(b: Bundle, a: Action, opts: Options, n: int)
    ensures ValidateScaleReplicas(b, a, opts) == Ok(EmptyPlan(ScaleReplicas, b).(replicas := n))
      <==> IsScaleUp(b, a, opts, n)
  {
    if ValidateScaleReplicas(b, a, opts) == Ok(EmptyPlan(ScaleReplicas, b).(replicas := n)) {
      var target := ScaleTarget(b, a, opts).value;
      ScaleTargetExact(b, a, opts, target);
      ScaleUpIsGreatest(b, a, opts, n, target);
    }
    if IsScaleUp(b, a, opts, n) {
      GreatestIsScaleUp(b, a, opts, n);
    }
  }

  ghost predicate IsScalePlan(b: Bundle, a: Action, opts: Options, p: Plan) {
    p == EmptyPlan(ScaleReplicas, b).(replicas := p.replicas) && IsScaleUp(b, a, opts, p.replicas)
  }

  lemma ScalePlanExact(b: Bundle, a: Action, opts: Options, p: Plan)
    ensures ValidateScaleReplicas(b, a, opts) == Ok(p) <==> IsScalePlan(b, a, opts, p)
  {
    ScaleUpExact(b, a, opts, p.replicas);
    ScaleExact(b, a, opts, p.replicas);
  }

  /** A scale-up the model proposes, with every gate open that is neither room nor policy. */
  predicate ProposesScaleUp(b: Bundle, confidence: string, a: Action, opts: Options) {
    && a.kind.ScaleReplicas? && Gate(b, confidence, a, opts).None?
    && !opts.autoReplicas && opts.maxReplicas > 0 && b.autoscaler.None? && b.capacity.Some?
    && 0 < b.replicas < a.replicas
  }

  /**
   * The documented rule is that a proposed target breaching any bound is refused. The
   * code trims the proposal to the cluster's room first and tests policy on what is
   * left, so a proposal beyond the multiplier or the backstop is accepted, trimmed,
   * exactly when there is room for some of its pods but not for all, and the count
   * there is room for breaches nothing.
   */
  lemma BreachingProposalAcceptedIff(b: Bundle, confidence: string, a: Action, opts: Options)
    requires ProposesScaleUp(b, confidence, a, opts) && !PolicyAllows(b.replicas, opts, a.replicas)
    ensures var room := AddClamped(b.replicas, Capacity.FitCount(b.capacity.value, b.podRequests));
      Validate(b, confidence, a, opts).Ok? <==> b.replicas < room < a.replicas && PolicyAllows(b.replicas, opts, room)
  {
    var room := AddClamped(b.replicas, Capacity.FitCount(b.capacity.value, b.podRequests));
    PolicyBoundExact(Min(a.replicas, room), b.replicas, opts, 0);
  }

  /** 100 replicas proposed for a workload of 2, with a multiplier of 4, a cap of 10 and room for 3 more. */
  lemma BreachingProposalAccepted(b: Bundle, confidence: string, a: Action, opts: Options)
    requires ProposesScaleUp(b, confidence, a, opts)
    requires b.replicas == 2 && a.replicas == 100 && opts.maxMultiplier == 4.0 && opts.maxReplicas == 10
    requires b.podRequests == Capacity.Requests(1000, 0)
    requires b.capacity.value == Capacity.Snapshot([Capacity.Node("n", 3000, 0, 10, 0, 0, 0, true)], 0.0)
    ensures !PolicyAllows(b.replicas, opts, a.replicas)
    ensures Validate(b, confidence, a, opts) == Ok(EmptyPlan(ScaleReplicas, b).(replicas := 5))
  {
    var s := b.capacity.value;
    Capacity.FitCountSnoc(s, 0, b.podRequests);
    assert s.(nodes := s.nodes[..1]) == s && s.nodes[..0] == [];
    assert Capacity.NodeSlots(s, s.nodes[0], b.podRequests) == 3;
    assert Ceiling(2, 4.0) == 8;
  }

  /** An accepted proposal is honoured as proposed exactly when all its new pods can be placed. */
  lemma ProposedTargetHonouredIffPlaceable(b: Bundle, confidence: string, a: Action, opts: Options, p: Plan)
    requires !opts.autoReplicas && a.replicas <= MAX_INT32
    requires Accepts(b, confidence, a, opts, p) && p.kind.ScaleReplicas?
    ensures a.replicas > b.replicas && p.replicas <= a.replicas
    ensures p.replicas == a.replicas <==> Capacity.CanPlace(b.capacity.value, b.podRequests, a.replicas - b.replicas)
  {
    AcceptedByItsKind(b, confidence, a, opts, p);
    ScaleExact(b, a, opts, p.replicas);
    var fit := Capacity.FitCount(b.capacity.value, b.podRequests);
    Capacity.FitCountIsOptimal(b.capacity.value, b.podRequests, a.replicas - b.replicas);
    PolicyBoundExact(Min(a.replicas, AddClamped(b.replicas, fit)), b.replicas, opts, 0);
  }

  /**
   * Two runs on the same evidence: whatever count the model proposes, the verdict
   * is the same refusal, or an acceptance of no more replicas than with no proposal.
   */
  lemma ModelCannotArgueReplicasUp(b: Bundle, confidence: string, a: Action, opts: Options)
    requires opts.autoReplicas && a.kind.ScaleReplicas?
    ensures var proposed, without :=
        Validate(b, confidence, a, opts), Validate(b, confidence, a.(replicas := 0), opts);
      && (without.Err? ==> proposed == without)
      && (without.Ok? ==> proposed.Ok? && proposed.value.replicas <= without.value.replicas)
  {
    if b.load.Some? {
      Capacity.TargetReplicasIsLeast(b.load.value, opts.targetCpuRatio, 0);
    }
  }

  // ----- The whole decision -----

  /** Every gate that does not depend on the proposed values stands open. */
  predicate GateOpen(b: Bundle, confidence: string, a: Action, opts: Options) {
    var fault := b.problem.kind;
    var storage := fault.PVCPending? || fault.VolumeMountFailed?;
    && !a.kind.NoAction?
    && (storage ==> a.kind.RestartWorkload? || a.kind.CreatePVC?)
    && (a.kind.CreatePVC? ==> storage)
    && (opts.allowedKinds == {} || fault in opts.allowedKinds)
    && Sufficient(confidence, opts.minConfidence)
    && b.problem.namespace !in opts.denyNamespaces
    && (opts.allowNamespaces == {} || b.problem.namespace in opts.allowNamespaces)
  }

  /** Exactly which plan a proposal may become. */
  ghost predicate IsHeal(b: Bundle, confidence: string, a: Action, opts: Options, p: Plan) {
    && GateOpen(b, confidence, a, opts)
    && match a.kind
       case PatchResources => IsResourcePatch(b, a, opts, p)
       case RestartWorkload => IsRestart(b, p)
       case PatchImage => IsImagePatch(b, a, p)
       case PatchProbe => IsProbePatch(b, a, opts, p)
       case ScaleReplicas => IsScalePlan(b, a, opts, p)
       case CreatePVC => IsClaimCreation(b, opts, p)
       case _ => false
  }

  lemma ValidateExact(b: Bundle, confidence: string, a: Action, opts: Options, p: Plan)
    ensures Accepts(b, confidence, a, opts, p) <==> IsHeal(b, confidence, a, opts, p)
  {
    ConfidenceExact(confidence, opts.minConfidence);
    match a.kind {
      case PatchResources => ResourcePatchExact(b, a, opts, p);
      case PatchImage => PatchImageExact(b, a, p);
      case PatchProbe => PatchProbeExact(b, a, opts, p);
      case ScaleReplicas => ScalePlanExact(b, a, opts, p);
      case CreatePVC => ClaimCreationExact(b, opts, p);
      case _ =>
    }
  }
}
