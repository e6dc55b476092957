/**
 * What a pod reserves, and how pods are charged to nodes. Kubernetes does not
 * accept negative quantities, so requests are natural numbers here.
 */
module PodRequests {
  import opened Prelude
  import opened Capacity

  datatype Container = Container(cpuMilli: nat, memBytes: nat)

  /** An init container; a sidecar is one that keeps running (restartPolicy Always). */
  datatype InitContainer = InitContainer(cpuMilli: nat, memBytes: nat, sidecar: bool)

  datatype PodSpec = PodSpec(containers: seq<Container>, inits: seq<InitContainer>, overhead: Option<Container>)

  datatype Resource = Cpu | Memory

  function Amount(res: Resource, cpu: nat, mem: nat): nat {
    if res.Cpu? then cpu else mem
  }

  // ----- The startup timeline -----

  function Wants(c: Container, res: Resource): nat {
    if res.Cpu? then c.cpuMilli else c.memBytes
  }

  /** Init container k takes its share of step t: it is the one starting or running, or a sidecar begun before it. */
  function InitShare(inits: seq<InitContainer>, res: Resource, t: nat, k: nat): nat
    requires k < |inits|
  {
    if k == t || (k < t && inits[k].sidecar) then (if res.Cpu? then inits[k].cpuMilli else inits[k].memBytes) else 0
  }

  function InitShares(inits: seq<InitContainer>, res: Resource, t: nat): seq<int> {
    seq(|inits|, k requires 0 <= k < |inits| => InitShare(inits, res, t, k))
  }

  function AppShares(containers: seq<Container>, res: Resource): seq<int> {
    seq(|containers|, k requires 0 <= k < |containers| => Wants(containers[k], res))
  }

  /**
   * What runs together at step t of the pod's startup: while init container t
   * starts or runs, it and every sidecar begun before it; after the last init
   * container, every sidecar and every app container.
   */
  function DemandAt(pod: PodSpec, res: Resource, t: nat): int
    requires t <= |pod.inits|
  {
    Sum(InitShares(pod.inits, res, t)) + (if t == |pod.inits| then Sum(AppShares(pod.containers, res)) else 0)
  }

  /** `peak` is the largest demand of the whole timeline. */
  ghost predicate IsPeakDemand(pod: PodSpec, res: Resource, peak: int) {
    && (forall t | 0 <= t <= |pod.inits| :: DemandAt(pod, res, t) <= peak)
    && exists t :: 0 <= t <= |pod.inits| && DemandAt(pod, res, t) == peak
  }

  // ----- The one-pass computation -----

  function AppDemand(res: Resource, containers: seq<Container>): nat {
    if containers == [] then 0 else
      var last := containers[|containers| - 1];
      AppDemand(res, containers[..|containers| - 1]) + Amount(res, last.cpuMilli, last.memBytes)
  }

  /** The sidecars among these init containers. */
  function SidecarDemand(res: Resource, inits: seq<InitContainer>): nat {
    if inits == [] then 0
    else
      var last := inits[|inits| - 1];
      SidecarDemand(res, inits[..|inits| - 1])
      + (if last.sidecar then Amount(res, last.cpuMilli, last.memBytes) else 0)
  }

  function Overhead(pod: PodSpec, res: Resource): nat {
    if pod.overhead.Some? then Amount(res, pod.overhead.value.cpuMilli, pod.overhead.value.memBytes) else 0
  }

  /** The largest ordinary init container, each on top of the sidecars before it. */
  function InitPeak(res: Resource, inits: seq<InitContainer>): nat {
    if inits == [] then 0
    else
      var before, last := inits[..|inits| - 1], inits[|inits| - 1];
      if last.sidecar then InitPeak(res, before)
      else Max(InitPeak(res, before), SidecarDemand(res, before) + Amount(res, last.cpuMilli, last.memBytes))
  }

  function EffectiveAmount(pod: PodSpec, res: Resource): nat {
    Max(AppDemand(res, pod.containers) + SidecarDemand(res, pod.inits), InitPeak(res, pod.inits)) + Overhead(pod, res)
  }

  function EffectiveRequests(pod: PodSpec): Requests {
    Requests(EffectiveAmount(pod, Cpu), EffectiveAmount(pod, Memory))
  }

  /** The amount is the largest demand of the timeline plus the pod's overhead. */
  ghost predicate CoversPeak(pod: PodSpec, res: Resource, amount: int) {
    match pod.overhead
    case None => IsPeakDemand(pod, res, amount)
    case Some(extra) => IsPeakDemand(pod, res, amount - Wants(extra, res))
  }

  method PodRequests(pod: PodSpec) returns (r: Requests)
    ensures r == EffectiveRequests(pod)
    ensures CoversPeak(pod, Cpu, r.cpuMilli) && CoversPeak(pod, Memory, r.memBytes)
  {
    EffectiveIsTimelinePeak(pod, Cpu);
    EffectiveIsTimelinePeak(pod, Memory);
    var cpu: nat, mem: nat := 0, 0;
    for i := 0 to |pod.containers|
      invariant cpu == AppDemand(Cpu, pod.containers[..i])
      invariant mem == AppDemand(Memory, pod.containers[..i])
    {
      assert pod.containers[..i + 1][..i] == pod.containers[..i];
      cpu := cpu + pod.containers[i].cpuMilli;
      mem := mem + pod.containers[i].memBytes;
    }
    assert pod.containers[..|pod.containers|] == pod.containers;

    var sidecarCpu: nat, sidecarMem: nat, peakCpu: nat, peakMem: nat := 0, 0, 0, 0;
    for i := 0 to |pod.inits|
      invariant sidecarCpu == SidecarDemand(Cpu, pod.inits[..i])
      invariant sidecarMem == SidecarDemand(Memory, pod.inits[..i])
      invariant peakCpu == InitPeak(Cpu, pod.inits[..i])
      invariant peakMem == InitPeak(Memory, pod.inits[..i])
    {
      assert pod.inits[..i + 1][..i] == pod.inits[..i];
      var ic := pod.inits[i];
      if ic.sidecar {
        sidecarCpu := sidecarCpu + ic.cpuMilli;
        sidecarMem := sidecarMem + ic.memBytes;
        continue;
      }
      if sidecarCpu + ic.cpuMilli > peakCpu {
        peakCpu := sidecarCpu + ic.cpuMilli;
      }
      if sidecarMem + ic.memBytes > peakMem {
        peakMem := sidecarMem + ic.memBytes;
      }
    }
    assert pod.inits[..|pod.inits|] == pod.inits;
    cpu := cpu + sidecarCpu;
    mem := mem + sidecarMem;
    if peakCpu > cpu {
      cpu := peakCpu;
    }
    if peakMem > mem {
      mem := peakMem;
    }
    if pod.overhead.Some? {
      cpu := cpu + pod.overhead.value.cpuMilli;
      mem := mem + pod.overhead.value.memBytes;
    }
    r := Requests(cpu, mem);
  }

  lemma {:induction false} AppSharesSum(containers: seq<Container>, res: Resource)
    ensures Sum(AppShares(containers, res)) == AppDemand(res, containers)
  {
    if containers != [] {
      var n := |containers| - 1;
      AppSharesSum(containers[..n], res);
      assert AppShares(containers, res)[..n] == AppShares(containers[..n], res);
    }
  }

  /** The shares of a step add up to the sidecars begun so far and what is starting. */
  lemma {:induction false} InitSharesSum(inits: seq<InitContainer>, res: Resource, t: nat)
    ensures Sum(InitShares(inits, res, t))
         == if t < |inits| then InitDemandAt(res, inits, t) else SidecarDemand(res, inits)
  {
    if inits != [] {
      var n := |inits| - 1;
      InitSharesSum(inits[..n], res, t);
      assert InitShares(inits, res, t)[..n] == InitShares(inits[..n], res, t);
      if t < n {
        assert inits[..n][..t] == inits[..t];
      }
    }
  }

  lemma DemandInParts(pod: PodSpec, res: Resource, t: nat)
    requires t <= |pod.inits|
    ensures DemandAt(pod, res, t) ==
      if t < |pod.inits| then InitDemandAt(res, pod.inits, t)
      else SidecarDemand(res, pod.inits) + AppDemand(res, pod.containers)
  {
    InitSharesSum(pod.inits, res, t);
    AppSharesSum(pod.containers, res);
  }

  /** One step of the timeline while init containers run. */
  function InitDemandAt(res: Resource, inits: seq<InitContainer>, t: nat): nat
    requires t < |inits|
  {
    SidecarDemand(res, inits[..t]) + Amount(res, inits[t].cpuMilli, inits[t].memBytes)
  }

  /**
   * During init no step needs more than the larger of the running peak and all
   * the sidecars together, and the running peak is one of the steps.
   */
  lemma {:induction false} InitStepsBounded(res: Resource, inits: seq<InitContainer>)
    ensures forall t | 0 <= t < |inits| ::
      InitDemandAt(res, inits, t) <= Max(InitPeak(res, inits), SidecarDemand(res, inits))
    ensures InitPeak(res, inits) == 0
      || exists t :: 0 <= t < |inits| && InitDemandAt(res, inits, t) == InitPeak(res, inits)
  {
    if inits != [] {
      var n := |inits| - 1;
      var before := inits[..n];
      InitStepsBounded(res, before);
      forall t | 0 <= t < |inits|
        ensures InitDemandAt(res, inits, t) <= Max(InitPeak(res, inits), SidecarDemand(res, inits))
        ensures t < n ==> InitDemandAt(res, inits, t) == InitDemandAt(res, before, t)
      {
        if t < n {
          assert inits[..t] == before[..t];
          assert InitDemandAt(res, before, t) <= Max(InitPeak(res, before), SidecarDemand(res, before));
        } else {
          assert inits[..t] == before;
        }
      }
      if !inits[n].sidecar && InitDemandAt(res, inits, n) > InitPeak(res, before) {
        assert InitDemandAt(res, inits, n) == InitPeak(res, inits);
      } else if InitPeak(res, before) != 0 {
        var t :| 0 <= t < |before| && InitDemandAt(res, before, t) == InitPeak(res, before);
        assert InitDemandAt(res, inits, t) == InitPeak(res, inits);
      }
    }
  }

  /** The one-pass result is the peak of the startup timeline, plus the pod's overhead. */
  lemma EffectiveIsTimelinePeak(pod: PodSpec, res: Resource)
    ensures CoversPeak(pod, res, EffectiveAmount(pod, res))
  {
    var peak := EffectiveAmount(pod, res) - Overhead(pod, res);
    var n := |pod.inits|;
    hide DemandAt, InitDemandAt, AppDemand, SidecarDemand, InitPeak;
    InitStepsBounded(res, pod.inits);
    DemandInParts(pod, res, n);
    forall t | 0 <= t <= n
      ensures DemandAt(pod, res, t) <= peak
    {
      DemandInParts(pod, res, t);
    }
    if peak != DemandAt(pod, res, n) {
      var t :| 0 <= t < n && InitDemandAt(res, pod.inits, t) == InitPeak(res, pod.inits);
      DemandInParts(pod, res, t);
    }
  }

  // ----- Raising one container's request -----

  function WithContainer(pod: PodSpec, i: nat, c: Container): PodSpec
    requires i < |pod.containers|
  {
    pod.(containers := pod.containers[i := c])
  }

  lemma {:induction false} AppDemandAfterChange(res: Resource, cs: seq<Container>, i: nat, c: Container)
    requires i < |cs|
    ensures AppDemand(res, cs[i := c])
         == AppDemand(res, cs) + Amount(res, c.cpuMilli, c.memBytes) - Amount(res, cs[i].cpuMilli, cs[i].memBytes)
    decreases |cs|
  {
    var n := |cs| - 1;
    if i < n {
      AppDemandAfterChange(res, cs[..n], i, c);
      assert cs[i := c][..n] == cs[..n][i := c];
    } else {
      assert cs[i := c][..n] == cs[..n];
    }
  }

  /** A raise never costs the pod more than the raise itself; it may cost less, hidden under an init peak. */
  lemma RaiseCostsAtMostItself(pod: PodSpec, i: nat, c: Container, res: Resource)
    requires i < |pod.containers|
    requires Wants(c, res) >= Wants(pod.containers[i], res)
    ensures EffectiveAmount(pod, res) <= EffectiveAmount(WithContainer(pod, i, c), res)
    ensures EffectiveAmount(WithContainer(pod, i, c), res)
         <= EffectiveAmount(pod, res) + Wants(c, res) - Wants(pod.containers[i], res)
  {
    AppDemandAfterChange(res, pod.containers, i, c);
  }

  // ----- Charging pods to nodes -----

  datatype NodeInfo = NodeInfo(name: string, allocCpuMilli: int, allocMemBytes: int, allocPods: int, schedulable: bool)

  /** `holds` is false for a pod that has Succeeded or Failed. */
  datatype BoundPod = BoundPod(nodeName: string, holds: bool, spec: PodSpec)

  /** What a node keeps account of. */
  datatype Measure = CpuUsed | MemUsed | PodsUsed

  function Used(n: Node, m: Measure): int {
    match m
    case CpuUsed => n.usedCpuMilli
    case MemUsed => n.usedMemBytes
    case PodsUsed => n.usedPods
  }

  /** What one pod holds of it where it runs. */
  function Holds(pod: BoundPod, m: Measure): nat {
    match m
    case CpuUsed => EffectiveAmount(pod.spec, Cpu)
    case MemUsed => EffectiveAmount(pod.spec, Memory)
    case PodsUsed => 1
  }

  /** The node table of the snapshot: the last node of a name carries all that name's pods. */
  predicate IsLastOfName(infos: seq<NodeInfo>, i: nat)
    requires i < |infos|
  {
    forall j | i < j < |infos| :: infos[j].name != infos[i].name
  }

  predicate DescribesNode(n: Node, info: NodeInfo) {
    && n.name == info.name && n.allocCpuMilli == info.allocCpuMilli && n.allocMemBytes == info.allocMemBytes
    && n.allocPods == info.allocPods && n.schedulable == info.schedulable
  }

  /** The pod still holds what it asked for, on this node. */
  predicate RunsOn(pod: BoundPod, infos: seq<NodeInfo>, i: nat)
    requires i < |infos|
  {
    pod.holds && pod.nodeName != "" && pod.nodeName == infos[i].name && IsLastOfName(infos, i)
  }

  function Share(infos: seq<NodeInfo>, i: nat, pod: BoundPod, m: Measure): nat
    requires i < |infos|
  {
    if RunsOn(pod, infos, i) then Holds(pod, m) else 0
  }

  /** Everything the pods on this node hold there. */
  function ChargedTo(infos: seq<NodeInfo>, i: nat, pods: seq<BoundPod>, m: Measure): nat
    requires i < |infos|
    decreases |pods|
  {
    if pods == [] then 0
    else ChargedTo(infos, i, pods[..|pods| - 1], m) + Share(infos, i, pods[|pods| - 1], m)
  }

  ghost predicate Accounts(nodes: seq<Node>, infos: seq<NodeInfo>, pods: seq<BoundPod>) {
    && |nodes| == |infos|
    && (forall i | 0 <= i < |nodes| :: DescribesNode(nodes[i], infos[i]))
    && forall i: nat, m | i < |nodes| :: Used(nodes[i], m) == ChargedTo(infos, i, pods, m)
  }

  function Charged(n: Node, req: Requests): Node {
    n.(usedCpuMilli := n.usedCpuMilli + req.cpuMilli,
       usedMemBytes := n.usedMemBytes + req.memBytes,
       usedPods := n.usedPods + 1)
  }

  lemma ChargedToSnoc(infos: seq<NodeInfo>, i: nat, pods: seq<BoundPod>, pod: BoundPod, m: Measure)
    requires i < |infos|
    ensures ChargedTo(infos, i, pods + [pod], m) == ChargedTo(infos, i, pods, m) + Share(infos, i, pod, m)
  {
    assert (pods + [pod])[..|pods|] == pods;
  }

  lemma ChargeKeepsAccounts(nodes: seq<Node>, infos: seq<NodeInfo>, pods: seq<BoundPod>, pod: BoundPod, at: nat)
    requires Accounts(nodes, infos, pods) && at < |infos| && RunsOn(pod, infos, at)
    ensures Accounts(nodes[at := Charged(nodes[at], EffectiveRequests(pod.spec))], infos, pods + [pod])
  {
    hide EffectiveAmount, ChargedTo;
    var after := nodes[at := Charged(nodes[at], EffectiveRequests(pod.spec))];
    forall i: nat, m | i < |infos|
      ensures Used(after[i], m) == ChargedTo(infos, i, pods + [pod], m)
    {
      ChargedToSnoc(infos, i, pods, pod, m);
      assert Used(nodes[i], m) == ChargedTo(infos, i, pods, m);
    }
    forall i | 0 <= i < |infos|
      ensures DescribesNode(after[i], infos[i])
    {
      assert DescribesNode(nodes[i], infos[i]);
    }
  }

  lemma SkipKeepsAccounts(nodes: seq<Node>, infos: seq<NodeInfo>, pods: seq<BoundPod>, pod: BoundPod)
    requires Accounts(nodes, infos, pods) && forall i: nat | i < |infos| :: !RunsOn(pod, infos, i)
    ensures Accounts(nodes, infos, pods + [pod])
  {
    hide EffectiveAmount, ChargedTo;
    forall i: nat, m | i < |infos|
      ensures Used(nodes[i], m) == ChargedTo(infos, i, pods + [pod], m)
    {
      ChargedToSnoc(infos, i, pods, pod, m);
      assert Used(nodes[i], m) == ChargedTo(infos, i, pods, m);
    }
  }

  lemma NothingCharged(nodes: seq<Node>, infos: seq<NodeInfo>)
    requires |nodes| == |infos| && forall i | 0 <= i < |nodes| :: DescribesNode(nodes[i], infos[i])
    requires forall i | 0 <= i < |nodes| ::
      nodes[i].usedCpuMilli == 0 && nodes[i].usedMemBytes == 0 && nodes[i].usedPods == 0
    ensures Accounts(nodes, infos, [])
  {
    hide EffectiveAmount;
  }

  method ClusterCapacity(infos: seq<NodeInfo>, pods: seq<BoundPod>, reserve: real) returns (snap: Snapshot)
    ensures snap.reserve == reserve
    ensures Accounts(snap.nodes, infos, pods)
  {
    var nodes := new Node[|infos|](i requires 0 <= i < |infos| =>
      Node(infos[i].name, infos[i].allocCpuMilli, infos[i].allocMemBytes, infos[i].allocPods, 0, 0, 0,
           infos[i].schedulable));
    var byName: map<string, nat> := map[];
    for i := 0 to |infos|
      invariant forall k | 0 <= k < i :: infos[k].name in byName
      invariant forall name | name in byName :: byName[name] < i && infos[byName[name]].name == name
      invariant forall name, j | name in byName && byName[name] < j < i :: infos[j].name != name
    {
      byName := byName[infos[i].name := i];
    }
    NothingCharged(nodes[..], infos);
    for p := 0 to |pods|
      invariant Accounts(nodes[..], infos, pods[..p])
    {
      assert pods[..p + 1] == pods[..p] + [pods[p]];
      var pod := pods[p];
      if pod.nodeName == "" || !pod.holds || pod.nodeName !in byName {
        SkipKeepsAccounts(nodes[..], infos, pods[..p], pod);
        continue;
      }
      var at := byName[pod.nodeName];
      var req := PodRequests(pod.spec);
      ChargeKeepsAccounts(nodes[..], infos, pods[..p], pod, at);
      ghost var before := nodes[..];
      nodes[at] := Charged(nodes[at], req);
      assert nodes[..] == before[at := Charged(before[at], req)];
    }
    assert pods[..|pods|] == pods;
    snap := Snapshot(nodes[..], reserve);
  }

  /** Of nodes listed under one name only the last carries anything. */
  lemma EarlierNamesakesAreEmpty(nodes: seq<Node>, infos: seq<NodeInfo>, pods: seq<BoundPod>, i: nat, j: nat,
                                 m: Measure)
    requires Accounts(nodes, infos, pods) && i < j < |infos| && infos[i].name == infos[j].name
    ensures Used(nodes[i], m) == 0
  {
    hide Holds, Used;
    assert Used(nodes[i], m) == ChargedTo(infos, i, pods, m);
    NotLastHoldsNothing(infos, i, pods, m);
  }

  lemma {:induction false} NotLastHoldsNothing(infos: seq<NodeInfo>, i: nat, pods: seq<BoundPod>, m: Measure)
    requires i < |infos| && !IsLastOfName(infos, i)
    ensures ChargedTo(infos, i, pods, m) == 0
    decreases |pods|
  {
    if pods != [] {
      NotLastHoldsNothing(infos, i, pods[..|pods| - 1], m);
    }
  }

  // ----- Nothing is charged twice or lost -----

  function TotalUsed(nodes: seq<Node>, m: Measure): int {
    if nodes == [] then 0 else TotalUsed(nodes[..|nodes| - 1], m) + Used(nodes[|nodes| - 1], m)
  }

  /** What the pods still holding resources on listed nodes hold, counted once per pod. */
  function Held(infos: seq<NodeInfo>, pods: seq<BoundPod>, m: Measure): nat {
    if pods == [] then 0
    else
      var last := pods[|pods| - 1];
      var listed := last.nodeName != "" && exists i :: 0 <= i < |infos| && infos[i].name == last.nodeName;
      Held(infos, pods[..|pods| - 1], m) + (if last.holds && listed then Holds(last, m) else 0)
  }

  function SumCharged(infos: seq<NodeInfo>, n: nat, pods: seq<BoundPod>, m: Measure): nat
    requires n <= |infos|
  {
    if n == 0 then 0 else SumCharged(infos, n - 1, pods, m) + ChargedTo(infos, n - 1, pods, m)
  }

  lemma TotalUsedSnoc(nodes: seq<Node>, n: nat, m: Measure)
    requires n < |nodes|
    ensures TotalUsed(nodes[..n + 1], m) == TotalUsed(nodes[..n], m) + Used(nodes[n], m)
  {
    assert nodes[..n + 1][..n] == nodes[..n];
  }

  lemma {:induction false} TotalIsSumCharged(nodes: seq<Node>, infos: seq<NodeInfo>, n: nat, pods: seq<BoundPod>,
                                             m: Measure)
    requires n <= |infos| && Accounts(nodes, infos, pods)
    ensures TotalUsed(nodes[..n], m) == SumCharged(infos, n, pods, m)
  {
    hide ChargedTo, Used;
    if n > 0 {
      TotalIsSumCharged(nodes, infos, n - 1, pods, m);
      TotalUsedSnoc(nodes, n - 1, m);
      assert Used(nodes[n - 1], m) == ChargedTo(infos, n - 1, pods, m);
    }
  }

  lemma {:induction false} SumChargedEmpty(infos: seq<NodeInfo>, n: nat, m: Measure)
    requires n <= |infos|
    ensures SumCharged(infos, n, [], m) == 0
  {
    if n > 0 {
      SumChargedEmpty(infos, n - 1, m);
    }
  }

  /** One more pod adds what it holds at exactly one place: the last node of its name. */
  lemma {:induction false} OnePodOneCharge(infos: seq<NodeInfo>, n: nat, pods: seq<BoundPod>, m: Measure)
    requires n <= |infos| && pods != []
    ensures var last := pods[|pods| - 1];
      SumCharged(infos, n, pods, m) == SumCharged(infos, n, pods[..|pods| - 1], m)
      + (if exists i :: 0 <= i < n && RunsOn(last, infos, i) then Holds(last, m) else 0)
  {
    hide Holds;
    if n > 0 {
      OnePodOneCharge(infos, n - 1, pods, m);
      var last := pods[|pods| - 1];
      if RunsOn(last, infos, n - 1) {
        assert forall i | 0 <= i < n - 1 :: !RunsOn(last, infos, i);
      }
    }
  }

  lemma {:induction false} NameHasLast(infos: seq<NodeInfo>, i: nat) returns (j: nat)
    requires i < |infos|
    ensures i <= j < |infos| && infos[j].name == infos[i].name && IsLastOfName(infos, j)
    decreases |infos| - i
  {
    if IsLastOfName(infos, i) {
      j := i;
    } else {
      var k :| i < k < |infos| && infos[k].name == infos[i].name;
      j := NameHasLast(infos, k);
    }
  }

  lemma {:induction false} SumChargedIsHeld(infos: seq<NodeInfo>, pods: seq<BoundPod>, m: Measure)
    ensures SumCharged(infos, |infos|, pods, m) == Held(infos, pods, m)
  {
    hide Holds, SumCharged;
    if pods == [] {
      SumChargedEmpty(infos, |infos|, m);
    } else {
      var last := pods[|pods| - 1];
      SumChargedIsHeld(infos, pods[..|pods| - 1], m);
      OnePodOneCharge(infos, |infos|, pods, m);
      if i :| 0 <= i < |infos| && infos[i].name == last.nodeName {
        var j := NameHasLast(infos, i);
        assert last.holds && last.nodeName != "" ==> RunsOn(last, infos, j);
      }
    }
  }

  /** Conservation: the nodes' used CPU, memory and pods add up to what their pods hold, each counted once. */
  lemma UsedIsConserved(nodes: seq<Node>, infos: seq<NodeInfo>, pods: seq<BoundPod>, m: Measure)
    requires Accounts(nodes, infos, pods)
    ensures TotalUsed(nodes, m) == Held(infos, pods, m)
  {
    hide ChargedTo;
    TotalIsSumCharged(nodes, infos, |infos|, pods, m);
    assert nodes[..|infos|] == nodes;
    SumChargedIsHeld(infos, pods, m);
  }
}
