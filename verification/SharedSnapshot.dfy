/**
 * All heals of one sweep are judged on one capacity snapshot, which no accepted
 * scale-up is charged to. When the scale-ups accepted on it fit together.
 */
module SharedSnapshot {
  import opened Prelude
  import opened HealTypes
  import opened Validator
  import opened ValidatorTheorems
  import Capacity
  import Lifecycle

  // ----- Several workloads on one cluster -----

  /** So many new pods of one size. */
  datatype Demand = Demand(req: Capacity.Requests, count: nat)

  /** How many pods of each demand go to each node. */
  type Layout = seq<seq<nat>>

  predicate IsLayout(s: Capacity.Snapshot, ds: seq<Demand>, layout: Layout) {
    && |layout| == |ds|
    && forall j | 0 <= j < |ds| :: |layout[j]| == |s.nodes| && Sum(layout[j]) == ds[j].count
  }

  function CpuOn(ds: seq<Demand>, layout: Layout, i: nat): int
    requires |layout| == |ds| && forall j | 0 <= j < |layout| :: i < |layout[j]|
  {
    if ds == [] then 0 else layout[0][i] * ds[0].req.cpuMilli + CpuOn(ds[1..], layout[1..], i)
  }

  function MemOn(ds: seq<Demand>, layout: Layout, i: nat): int
    requires |layout| == |ds| && forall j | 0 <= j < |layout| :: i < |layout[j]|
  {
    if ds == [] then 0 else layout[0][i] * ds[0].req.memBytes + MemOn(ds[1..], layout[1..], i)
  }

  function PodsOn(layout: Layout, i: nat): nat
    requires forall j | 0 <= j < |layout| :: i < |layout[j]|
  {
    if layout == [] then 0 else layout[0][i] + PodsOn(layout[1..], i)
  }

  predicate HoldsAt(s: Capacity.Snapshot, ds: seq<Demand>, layout: Layout, i: nat)
    requires i < |s.nodes| && |layout| == |ds| && forall j | 0 <= j < |layout| :: i < |layout[j]|
  {
    Capacity.NodeHolds(s, s.nodes[i], CpuOn(ds, layout, i), MemOn(ds, layout, i), PodsOn(layout, i))
  }

  ghost predicate LaysOut(s: Capacity.Snapshot, ds: seq<Demand>, layout: Layout) {
    IsLayout(s, ds, layout) && forall i: nat | i < |s.nodes| :: HoldsAt(s, ds, layout, i)
  }

  /** All the new pods together stay inside every node's headrooms. */
  ghost predicate FitTogether(s: Capacity.Snapshot, ds: seq<Demand>) {
    exists layout :: LaysOut(s, ds, layout)
  }

  // ----- Charging one demand before the next -----

  predicate Sizes(ds: seq<Demand>) {
    forall j | 0 <= j < |ds| :: ds[j].req.cpuMilli >= 0 && ds[j].req.memBytes >= 0
  }

  function ChargedNode(n: Capacity.Node, req: Capacity.Requests, pods: nat): Capacity.Node {
    n.(usedCpuMilli := n.usedCpuMilli + pods * req.cpuMilli, usedMemBytes := n.usedMemBytes + pods * req.memBytes,
       usedPods := n.usedPods + pods)
  }

  /** The snapshot after these pods have been counted as used. */
  function Charged(s: Capacity.Snapshot, req: Capacity.Requests, pods: seq<nat>): Capacity.Snapshot
    requires |pods| == |s.nodes|
  {
    s.(nodes := seq(|s.nodes|, i requires 0 <= i < |s.nodes| => ChargedNode(s.nodes[i], req, pods[i])))
  }

  lemma {:induction false} NothingOnNode(ds: seq<Demand>, layout: Layout, i: nat)
    requires Sizes(ds) && |layout| == |ds| && forall j | 0 <= j < |layout| :: i < |layout[j]|
    ensures CpuOn(ds, layout, i) >= 0 && MemOn(ds, layout, i) >= 0
    ensures PodsOn(layout, i) == 0 ==> CpuOn(ds, layout, i) == 0 && MemOn(ds, layout, i) == 0
  {
    if ds != [] {
      NothingOnNode(ds[1..], layout[1..], i);
      Capacity.TimesIsMonotone(layout[0][i], 0, ds[0].req.cpuMilli);
      Capacity.TimesIsMonotone(layout[0][i], 0, ds[0].req.memBytes);
    }
  }

  lemma DemandsSplit(alloc: int, used: int, share: real, x: nat, y: nat)
    ensures Capacity.StaysWithin(alloc, used, share, x + y)
      <==> Capacity.StaysWithin(alloc, used, share, x) && Capacity.StaysWithin(alloc, used + x, share, y)
  {
  }

  /** On one node: the first pods go in, and the others into what they leave. */
  lemma ChargingSplits(s: Capacity.Snapshot, n: Capacity.Node, req: Capacity.Requests, k: nat, cpu: nat, mem: nat,
                       pods: nat)
    requires req.cpuMilli >= 0 && req.memBytes >= 0 && (pods == 0 ==> cpu == 0 && mem == 0)
    ensures Capacity.NodeHolds(s, n, k * req.cpuMilli + cpu, k * req.memBytes + mem, k + pods)
      <==> Capacity.NodeTakes(s, n, req, k) && Capacity.NodeHolds(s, ChargedNode(n, req, k), cpu, mem, pods)
  {
    Capacity.TimesIsMonotone(k, 0, req.cpuMilli);
    Capacity.TimesIsMonotone(k, 0, req.memBytes);
    DemandsSplit(n.allocCpuMilli, n.usedCpuMilli, s.reserve, k * req.cpuMilli, cpu);
    DemandsSplit(n.allocMemBytes, n.usedMemBytes, s.reserve, k * req.memBytes, mem);
    DemandsSplit(n.allocPods, n.usedPods, s.reserve, k, pods);
  }

  lemma OneNode(s: Capacity.Snapshot, ds: seq<Demand>, layout: Layout, i: nat)
    requires ds != [] && Sizes(ds) && |layout| == |ds| && i < |s.nodes|
    requires forall j | 0 <= j < |layout| :: |layout[j]| == |s.nodes|
    ensures var left := Charged(s, ds[0].req, layout[0]);
      HoldsAt(s, ds, layout, i) <==>
        Capacity.NodeTakes(s, s.nodes[i], ds[0].req, layout[0][i]) && HoldsAt(left, ds[1..], layout[1..], i)
  {
    var left := Charged(s, ds[0].req, layout[0]);
    NothingOnNode(ds[1..], layout[1..], i);
    var cpu, mem, pods := CpuOn(ds[1..], layout[1..], i), MemOn(ds[1..], layout[1..], i), PodsOn(layout[1..], i);
    ChargingSplits(s, s.nodes[i], ds[0].req, layout[0][i], cpu, mem, pods);
  }

  ghost predicate PlacedFirst(s: Capacity.Snapshot, d: Demand, pods: seq<nat>) {
    Capacity.IsPlacement(s, d.req, pods) && Sum(pods) == d.count
  }

  /**
   * Whatever their sizes, scale-ups fit together exactly when each of them fits into
   * what those before it leave: the check that would be right charges the snapshot.
   */
  lemma FitTogetherIffCharged(s: Capacity.Snapshot, ds: seq<Demand>)
    requires ds != [] && Sizes(ds)
    ensures FitTogether(s, ds) <==>
      exists pods :: PlacedFirst(s, ds[0], pods) && FitTogether(Charged(s, ds[0].req, pods), ds[1..])
  {
    if FitTogether(s, ds) {
      var layout :| LaysOut(s, ds, layout);
      var left := Charged(s, ds[0].req, layout[0]);
      forall i: nat | i < |s.nodes|
        ensures Capacity.NodeTakes(s, s.nodes[i], ds[0].req, layout[0][i]) && HoldsAt(left, ds[1..], layout[1..], i)
      {
        assert HoldsAt(s, ds, layout, i);
        OneNode(s, ds, layout, i);
      }
      assert PlacedFirst(s, ds[0], layout[0]);
      assert LaysOut(left, ds[1..], layout[1..]);
    }
    if pods :| PlacedFirst(s, ds[0], pods) && FitTogether(Charged(s, ds[0].req, pods), ds[1..]) {
      var left := Charged(s, ds[0].req, pods);
      var others :| LaysOut(left, ds[1..], others);
      var layout := [pods] + others;
      assert layout[1..] == others;
      forall i: nat | i < |s.nodes|
        ensures HoldsAt(s, ds, layout, i)
      {
        assert HoldsAt(left, ds[1..], others, i);
        assert Capacity.NodeTakes(s, s.nodes[i], ds[0].req, pods[i]);
        OneNode(s, ds, layout, i);
      }
      assert LaysOut(s, ds, layout);
    }
  }

  // ----- Demands of one size -----

  function Total(ds: seq<Demand>): nat {
    if ds == [] then 0 else ds[0].count + Total(ds[1..])
  }

  /** What each of n nodes gets in all. */
  function Totals(layout: Layout, n: nat): seq<nat>
    requires forall j | 0 <= j < |layout| :: |layout[j]| == n
  {
    seq(n, i requires 0 <= i < n => PodsOn(layout, i))
  }

  lemma {:induction false} SumsAdd(a: seq<nat>, b: seq<nat>, c: seq<nat>)
    requires |a| == |b| == |c| && forall i | 0 <= i < |c| :: c[i] == a[i] + b[i]
    ensures Sum(c) == Sum(a) + Sum(b)
  {
    if c != [] {
      var last := |c| - 1;
      SumsAdd(a[..last], b[..last], c[..last]);
    }
  }

  lemma {:induction false} NoPodsNoSum(pods: seq<nat>)
    ensures Sum(pods) >= 0
    ensures Sum(pods) == 0 <==> forall i | 0 <= i < |pods| :: pods[i] == 0
  {
    if pods != [] {
      NoPodsNoSum(pods[..|pods| - 1]);
    }
  }

  lemma {:induction false} TotalsSum(s: Capacity.Snapshot, ds: seq<Demand>, layout: Layout)
    requires IsLayout(s, ds, layout)
    ensures Sum(Totals(layout, |s.nodes|)) == Total(ds)
  {
    var n := |s.nodes|;
    if ds == [] {
      NoPodsNoSum(Totals(layout, n));
    } else {
      TotalsSum(s, ds[1..], layout[1..]);
      SumsAdd(layout[0], Totals(layout[1..], n), Totals(layout, n));
    }
  }

  predicate OneSize(ds: seq<Demand>, req: Capacity.Requests) {
    forall j | 0 <= j < |ds| :: ds[j].req == req
  }

  lemma {:induction false} OneSizeOn(ds: seq<Demand>, req: Capacity.Requests, layout: Layout, i: nat)
    requires OneSize(ds, req) && |layout| == |ds| && forall j | 0 <= j < |layout| :: i < |layout[j]|
    ensures CpuOn(ds, layout, i) == PodsOn(layout, i) * req.cpuMilli
    ensures MemOn(ds, layout, i) == PodsOn(layout, i) * req.memBytes
  {
    if ds != [] {
      OneSizeOn(ds[1..], req, layout[1..], i);
      Distribute(layout[0][i], PodsOn(layout[1..], i), req.cpuMilli);
      Distribute(layout[0][i], PodsOn(layout[1..], i), req.memBytes);
    }
  }

  lemma Distribute(a: int, b: int, x: int)
    ensures (a + b) * x == a * x + b * x
  {
  }

  /** Some of these pods, node by node, to a given number. */
  lemma {:induction false} TakeSome(pods: seq<nat>, count: nat) returns (some: seq<nat>)
    requires count <= Sum(pods)
    ensures |some| == |pods| && Sum(some) == count && forall i | 0 <= i < |pods| :: some[i] <= pods[i]
  {
    if pods == [] {
      some := [];
    } else {
      var last := |pods| - 1;
      var here: nat := Min(count, pods[last]);
      NoPodsNoSum(pods[..last]);
      var others := TakeSome(pods[..last], count - here);
      some := others + [here];
      assert some[..last] == others;
    }
  }

  /** A placement of all the pods, dealt out to the demands. */
  lemma {:induction false} DealOut(s: Capacity.Snapshot, ds: seq<Demand>, pods: seq<nat>) returns (layout: Layout)
    requires |pods| == |s.nodes| && Sum(pods) == Total(ds)
    ensures IsLayout(s, ds, layout) && forall i | 0 <= i < |pods| :: PodsOn(layout, i) == pods[i]
  {
    NoPodsNoSum(pods);
    if ds == [] {
      layout := [];
    } else {
      var first := TakeSome(pods, ds[0].count);
      var left := seq(|pods|, i requires 0 <= i < |pods| => (pods[i] - first[i]) as nat);
      SumsAdd(first, left, pods);
      var others := DealOut(s, ds[1..], left);
      layout := [first] + others;
      assert layout[1..] == others;
    }
  }

  /** Scale-ups of pods of one size fit together exactly when the snapshot has room for all of them at once. */
  lemma OneSizeFitsIff(s: Capacity.Snapshot, ds: seq<Demand>, req: Capacity.Requests)
    requires OneSize(ds, req)
    ensures FitTogether(s, ds) <==> Total(ds) <= Capacity.FitCount(s, req)
  {
    Capacity.FitCountIsOptimal(s, req, Total(ds));
    if FitTogether(s, ds) {
      var layout :| LaysOut(s, ds, layout);
      var pods := Totals(layout, |s.nodes|);
      forall i | 0 <= i < |pods|
        ensures Capacity.NodeTakes(s, s.nodes[i], req, pods[i])
      {
        assert HoldsAt(s, ds, layout, i);
        OneSizeOn(ds, req, layout, i);
      }
      TotalsSum(s, ds, layout);
      assert Capacity.IsPlacement(s, req, pods);
    }
    if Total(ds) <= Capacity.FitCount(s, req) {
      var pods: seq<nat> :| Capacity.IsPlacement(s, req, pods) && Sum(pods) == Total(ds);
      var layout := DealOut(s, ds, pods);
      forall i: nat | i < |s.nodes|
        ensures HoldsAt(s, ds, layout, i)
      {
        assert Capacity.NodeTakes(s, s.nodes[i], req, pods[i]);
        OneSizeOn(ds, req, layout, i);
      }
      assert LaysOut(s, ds, layout);
    }
  }

  // ----- The scale-ups of one sweep -----

  datatype ScaleUp = ScaleUp(b: Bundle, confidence: string, a: Action, p: Plan)

  /** A scale-up accepted on this snapshot. */
  predicate JudgedOn(opts: Options, s: Capacity.Snapshot, u: ScaleUp) {
    Accepts(u.b, u.confidence, u.a, opts, u.p) && u.p.kind.ScaleReplicas? && u.b.capacity == Some(s)
  }

  function DemandOf(u: ScaleUp): Demand {
    Demand(u.b.podRequests, Max(0, u.p.replicas - u.b.replicas))
  }

  function Demands(ups: seq<ScaleUp>): (ds: seq<Demand>)
    ensures |ds| == |ups| && forall j | 0 <= j < |ups| :: ds[j] == DemandOf(ups[j])
  {
    seq(|ups|, j requires 0 <= j < |ups| => DemandOf(ups[j]))
  }

  predicate OfDifferentPods(ups: seq<ScaleUp>) {
    forall i, j | 0 <= i < j < |ups| ::
      ups[i].b.problem.namespace != ups[j].b.problem.namespace || ups[i].b.problem.pod != ups[j].b.problem.pod
  }

  /** Scale-ups one sweep can accept, one for each of different pods, all on the sweep's snapshot. */
  ghost predicate OneSweeps(opts: Options, maxHeals: int, s: Capacity.Snapshot, ups: seq<ScaleUp>) {
    && (maxHeals > 0 ==> |ups| <= maxHeals)
    && OfDifferentPods(ups) && forall j | 0 <= j < |ups| :: JudgedOn(opts, s, ups[j])
  }

  ghost predicate SweepsFit(opts: Options, maxHeals: int) {
    forall s, ups | OneSweeps(opts, maxHeals, s, ups) :: FitTogether(s, Demands(ups))
  }

  /** With these options some scale-up is accepted on some evidence. */
  ghost predicate CanScale(opts: Options) {
    exists u: ScaleUp :: Accepts(u.b, u.confidence, u.a, opts, u.p) && u.p.kind.ScaleReplicas?
  }

  lemma OneScaleUpFits(opts: Options, s: Capacity.Snapshot, u: ScaleUp)
    requires JudgedOn(opts, s, u)
    ensures FitTogether(s, Demands([u]))
  {
    AcceptedScaleIsAllowed(u.b, u.confidence, u.a, opts, u.p);
    Capacity.FitCountIsOptimal(s, u.b.podRequests, u.p.replicas - u.b.replicas);
    OneSizeFitsIff(s, Demands([u]), u.b.podRequests);
    assert Demands([u])[1..] == [];
  }

  /** One node with exactly so much room. */
  function TightSnapshot(req: Capacity.Requests, k: nat): Capacity.Snapshot {
    Capacity.Snapshot([Capacity.Node("n", Max(0, k * req.cpuMilli), Max(0, k * req.memBytes), k, 0, 0, 0, true)], 0.0)
  }

  lemma TightRoom(req: Capacity.Requests, k: nat)
    ensures Capacity.FitCount(TightSnapshot(req, k), req) == k
  {
    var s := TightSnapshot(req, k);
    Capacity.FitCountSnoc(s, 0, req);
    assert s.(nodes := s.nodes[..1]) == s && s.nodes[..0] == [];
    Capacity.NodeTakesUpToSlots(s, s.nodes[0], req, k);
    Capacity.NodeTakesUpToSlots(s, s.nodes[0], req, k + 1);
  }

  /** The same evidence of some workload found through another pod, judged on another snapshot. */
  function Elsewhere(u: ScaleUp, pod: string, s: Capacity.Snapshot): ScaleUp {
    var b := u.b.(problem := u.b.problem.(pod := pod), capacity := Some(s));
    u.(b := b, p := EmptyPlan(ScaleReplicas, b).(replicas := u.p.replicas))
  }

  /** On a snapshot with just the room an accepted scale-up needs it is accepted all the same. */
  lemma AcceptedOnTight(opts: Options, u: ScaleUp, pod: string)
    requires Accepts(u.b, u.confidence, u.a, opts, u.p) && u.p.kind.ScaleReplicas?
    ensures u.b.replicas < u.p.replicas
    ensures var s := TightSnapshot(u.b.podRequests, u.p.replicas - u.b.replicas);
      JudgedOn(opts, s, Elsewhere(u, pod, s))
  {
    hide Accepts, PolicyAllows, Sufficient, IsClaimCreation, IsProbePatch, IsResourcePatch, IsImagePatch,
      IsRestart, TightSnapshot, Capacity.FitCount;
    AcceptedByItsKind(u.b, u.confidence, u.a, opts, u.p);
    ValidateExact(u.b, u.confidence, u.a, opts, u.p);
    var n := u.p.replicas;
    var target :|
      IsScaleTarget(u.b, u.a, opts, target) && Placeable(u.b, target, n) && PolicyAllows(u.b.replicas, opts, n);
    var s := TightSnapshot(u.b.podRequests, n - u.b.replicas);
    var v := Elsewhere(u, pod, s);
    TightRoom(u.b.podRequests, n - u.b.replicas);
    PlaceableExact(v.b, target, n);
    forall m | Placeable(v.b, target, m)
      ensures m <= n
    {
      PlaceableExact(v.b, target, m);
    }
    assert IsScaleTarget(v.b, v.a, opts, target);
    assert IsScaleUp(v.b, v.a, opts, n);
    ValidateExact(v.b, v.confidence, v.a, opts, v.p);
  }

  lemma TotalOfTwo(ds: seq<Demand>)
    requires |ds| == 2
    ensures Total(ds) == ds[0].count + ds[1].count
  {
    assert ds[1..][1..] == [];
    assert Total(ds[1..]) == ds[1].count + Total(ds[1..][1..]);
  }

  lemma TwoOverfill(opts: Options, u: ScaleUp) returns (s: Capacity.Snapshot, ups: seq<ScaleUp>)
    requires Accepts(u.b, u.confidence, u.a, opts, u.p) && u.p.kind.ScaleReplicas?
    ensures |ups| == 2 && OfDifferentPods(ups) && forall j | 0 <= j < |ups| :: JudgedOn(opts, s, ups[j])
    ensures !FitTogether(s, Demands(ups))
  {
    hide JudgedOn, Accepts, FitTogether, TightSnapshot;
    AcceptedOnTight(opts, u, "a");
    AcceptedOnTight(opts, u, "b");
    var k := u.p.replicas - u.b.replicas;
    s := TightSnapshot(u.b.podRequests, k);
    ups := [Elsewhere(u, "a", s), Elsewhere(u, "b", s)];
    TightRoom(u.b.podRequests, k);
    OneSizeFitsIff(s, Demands(ups), u.b.podRequests);
    TotalOfTwo(Demands(ups));
  }

  /**
   * Every scale-up has room on the snapshot it was judged on, but several of one sweep
   * need not have it together: they always do exactly when the sweep's allowance is a
   * single heal, or the options let no scale-up through at all.
   */
  lemma SweepsFitIff(opts: Options, maxHeals: int)
    ensures SweepsFit(opts, maxHeals) <==> maxHeals == 1 || !CanScale(opts)
  {
    if maxHeals == 1 || !CanScale(opts) {
      forall s, ups | OneSweeps(opts, maxHeals, s, ups)
        ensures FitTogether(s, Demands(ups))
      {
        FewFit(opts, maxHeals, s, ups);
      }
    } else {
      var u: ScaleUp :| Accepts(u.b, u.confidence, u.a, opts, u.p) && u.p.kind.ScaleReplicas?;
      var s, ups := TwoOverfill(opts, u);
      assert OneSweeps(opts, maxHeals, s, ups);
    }
  }

  lemma FewFit(opts: Options, maxHeals: int, s: Capacity.Snapshot, ups: seq<ScaleUp>)
    requires OneSweeps(opts, maxHeals, s, ups) && (maxHeals == 1 || !CanScale(opts))
    ensures FitTogether(s, Demands(ups))
  {
    if ups == [] {
      OneSizeFitsIff(s, Demands(ups), Capacity.Requests(0, 0));
    } else {
      assert JudgedOn(opts, s, ups[0]);
      OneScaleUpFits(opts, s, ups[0]);
      assert ups == [ups[0]];
    }
  }

  /** 100 replicas proposed for a workload of 2, accepted as 5 where there is room for 3 more of its pods. */
  predicate TrimmedToFive(u: ScaleUp, opts: Options) {
    && ProposesScaleUp(u.b, u.confidence, u.a, opts)
    && u.b.replicas == 2 && u.a.replicas == 100 && opts.maxMultiplier == 4.0 && opts.maxReplicas == 10
    && u.b.podRequests == Capacity.Requests(1000, 0)
    && u.b.capacity == Some(Capacity.Snapshot([Capacity.Node("n", 3000, 0, 10, 0, 0, 0, true)], 0.0))
    && u.p == EmptyPlan(ScaleReplicas, u.b).(replicas := 5)
  }

  lemma TrimmedToFiveIsAccepted(u: ScaleUp, opts: Options)
    requires TrimmedToFive(u, opts)
    ensures JudgedOn(opts, u.b.capacity.value, u) && Capacity.FitCount(u.b.capacity.value, u.b.podRequests) == 3
  {
    var s := u.b.capacity.value;
    BreachingProposalAccepted(u.b, u.confidence, u.a, opts);
    Capacity.FitCountSnoc(s, 0, u.b.podRequests);
    assert s.(nodes := s.nodes[..1]) == s && s.nodes[..0] == [];
  }

  /** Two such workloads are both accepted, six pods where there is room for three. */
  lemma TwoScaleUpsOverfill(opts: Options, u: ScaleUp, v: ScaleUp)
    requires TrimmedToFive(u, opts) && TrimmedToFive(v, opts)
    ensures JudgedOn(opts, u.b.capacity.value, u) && JudgedOn(opts, u.b.capacity.value, v)
    ensures !FitTogether(u.b.capacity.value, Demands([u, v]))
  {
    hide JudgedOn, FitTogether;
    TrimmedToFiveIsAccepted(u, opts);
    TrimmedToFiveIsAccepted(v, opts);
    OneSizeFitsIff(u.b.capacity.value, Demands([u, v]), u.b.podRequests);
    TotalOfTwo(Demands([u, v]));
  }

  // ----- In a trace of heals -----

  /** The scale-ups among these events, as they were judged. */
  function ScaleUpsIn(opts: Options, events: seq<Lifecycle.Event>): seq<ScaleUp> {
    if events == [] then []
    else
      var before, e := ScaleUpsIn(opts, events[..|events| - 1]), events[|events| - 1];
      if e.Verify? then before
      else
        var v := Validate(e.b, e.confidence, e.a, opts);
        if v.Ok? && v.value.kind.ScaleReplicas? then before + [ScaleUp(e.b, e.confidence, e.a, v.value)] else before
  }

  lemma {:induction false} ScaleUpsAreHeals(opts: Options, events: seq<Lifecycle.Event>)
    ensures |ScaleUpsIn(opts, events)| <= Lifecycle.HealsIn(events)
    ensures forall u | u in ScaleUpsIn(opts, events) ::
      Accepts(u.b, u.confidence, u.a, opts, u.p) && u.p.kind.ScaleReplicas?
  {
    hide Validate;
    if events != [] {
      ScaleUpsAreHeals(opts, events[..|events| - 1]);
    }
  }

  lemma {:induction false} HealsAdd(before: seq<Lifecycle.Event>, events: seq<Lifecycle.Event>)
    ensures Lifecycle.HealsIn(before + events) == Lifecycle.HealsIn(before) + Lifecycle.HealsIn(events)
  {
    if events == [] {
      assert before + events == before;
    } else {
      var front, e := events[..|events| - 1], events[|events| - 1];
      HealsAdd(before, front);
      assert before + events == before + front + [e];
      Lifecycle.HealsInSnoc(before + front, e);
      assert front + [e] == events;
      Lifecycle.HealsInSnoc(front, e);
    }
  }

  lemma FewHealsFewScaleUps(opts: Options, maxHeals: int, s: Capacity.Snapshot, before: seq<Lifecycle.Event>,
                            events: seq<Lifecycle.Event>)
    requires maxHeals == 1 && Lifecycle.HealsIn(before + events) <= Lifecycle.HealsIn(before) + maxHeals
    requires forall u | u in ScaleUpsIn(opts, events) :: u.b.capacity == Some(s)
    ensures FitTogether(s, Demands(ScaleUpsIn(opts, events)))
  {
    hide Accepts, FitTogether, ScaleUpsIn, Lifecycle.HealsIn;
    ScaleUpsAreHeals(opts, events);
    HealsAdd(before, events);
    FewFit(opts, maxHeals, s, ScaleUpsIn(opts, events));
  }
}
