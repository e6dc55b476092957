/**
 * How much room a cluster has left, and how many replicas a measured load asks
 * for. Quantities are exact integers (millicores, bytes, pods), ratios are reals.
 */
module Capacity {
  import opened Prelude

  datatype Requests = Requests(cpuMilli: int, memBytes: int)

  datatype Node = Node(
    name: string,
    allocCpuMilli: int, allocMemBytes: int, allocPods: int,
    usedCpuMilli: int, usedMemBytes: int, usedPods: int,
    schedulable: bool)

  datatype Snapshot = Snapshot(nodes: seq<Node>, reserve: real)

  datatype Headroom = Headroom(cpuMilli: nat, memBytes: nat, pods: nat)

  /** The configured reserve, kept inside [0, 0.9]. */
  function Reserve(s: Snapshot): (r: real)
    ensures 0.0 <= r <= 0.9
  {
    if s.reserve < 0.0 then 0.0 else if s.reserve > 0.9 then 0.9 else s.reserve
  }

  function Free(alloc: int, used: int, reserve: real): nat {
    Max(0, alloc - used - Trunc(alloc as real * reserve))
  }

  function HeadroomOn(s: Snapshot, n: Node): Headroom {
    var r := Reserve(s);
    Headroom(Free(n.allocCpuMilli, n.usedCpuMilli, r),
             Free(n.allocMemBytes, n.usedMemBytes, r),
             Free(n.allocPods, n.usedPods, r))
  }

  // ----- Counting what fits -----

  /** How many pods of this size one node takes. */
  function NodeSlots(s: Snapshot, n: Node, req: Requests): nat {
    if !n.schedulable then 0 else
      var free := HeadroomOn(s, n);
      var byCpu := if req.cpuMilli > 0 then Min(free.pods, free.cpuMilli / req.cpuMilli) else free.pods;
      if req.memBytes > 0 then Min(byCpu, free.memBytes / req.memBytes) else byCpu
  }

  function FitCount(s: Snapshot, req: Requests): nat
    decreases |s.nodes|
  {
    if s.nodes == [] then 0
    else FitCount(s.(nodes := s.nodes[..|s.nodes| - 1]), req) + NodeSlots(s, s.nodes[|s.nodes| - 1], req)
  }

  lemma FitCountSnoc(s: Snapshot, i: nat, req: Requests)
    requires i < |s.nodes|
    ensures FitCount(s.(nodes := s.nodes[..i + 1]), req)
         == FitCount(s.(nodes := s.nodes[..i]), req) + NodeSlots(s, s.nodes[i], req)
  {
    var longer := s.(nodes := s.nodes[..i + 1]);
    assert longer.nodes[..|longer.nodes| - 1] == s.nodes[..i];
    assert longer.(nodes := s.nodes[..i]) == s.(nodes := s.nodes[..i]);
  }

  /** The per-node loop, accumulating the tightest of the three bounds. */
  method FitAdditional(s: Snapshot, req: Requests) returns (total: nat)
    ensures forall k: nat :: CanPlace(s, req, k) <==> k <= total
    ensures total == FitCount(s, req)
  {
    hide CanPlace;
    forall k: nat {
      FitCountIsOptimal(s, req, k);
    }
    total := 0;
    for i := 0 to |s.nodes|
      invariant total == FitCount(s.(nodes := s.nodes[..i]), req)
    {
      FitCountSnoc(s, i, req);
      var n := s.nodes[i];
      if !n.schedulable {
        continue;
      }
      var free := HeadroomOn(s, n);
      var slots: int := free.pods;
      if req.cpuMilli > 0 {
        slots := Min(slots, free.cpuMilli / req.cpuMilli);
      }
      if req.memBytes > 0 {
        slots := Min(slots, free.memBytes / req.memBytes);
      }
      if slots > 0 {
        total := total + slots;
      }
    }
    assert s.(nodes := s.nodes[..|s.nodes|]) == s;
  }

  // ----- What "fits" means, independently of the counting -----

  /** What is held back of so much allocatable: the configured share, never less than none nor more than nine tenths. */
  function HeldBack(alloc: int, share: real): int {
    Trunc(alloc as real * (if share < 0.0 then 0.0 else if share > 0.9 then 0.9 else share))
  }

  /** A demand goes on top of what is used and what is held back; none at all always goes. */
  predicate StaysWithin(alloc: int, used: int, share: real, demand: int) {
    demand > 0 ==> used + demand + HeldBack(alloc, share) <= alloc
  }

  /** The node takes so many pods needing so much in all. */
  predicate NodeHolds(s: Snapshot, n: Node, cpu: int, mem: int, pods: nat) {
    pods > 0 ==>
      && n.schedulable
      && StaysWithin(n.allocCpuMilli, n.usedCpuMilli, s.reserve, cpu)
      && StaysWithin(n.allocMemBytes, n.usedMemBytes, s.reserve, mem)
      && StaysWithin(n.allocPods, n.usedPods, s.reserve, pods)
  }

  /** So many pods of this size go on this node. */
  predicate NodeTakes(s: Snapshot, n: Node, req: Requests, pods: nat) {
    NodeHolds(s, n, pods * req.cpuMilli, pods * req.memBytes, pods)
  }

  lemma FreeExact(s: Snapshot, alloc: int, used: int, demand: int)
    ensures demand <= Free(alloc, used, Reserve(s)) <==> StaysWithin(alloc, used, s.reserve, demand)
  {
  }

  /** An assignment of pods to nodes, one count a node. */
  ghost predicate IsPlacement(s: Snapshot, req: Requests, pods: seq<nat>) {
    && |pods| == |s.nodes|
    && forall i :: 0 <= i < |pods| ==> NodeTakes(s, s.nodes[i], req, pods[i])
  }

  ghost predicate CanPlace(s: Snapshot, req: Requests, k: nat) {
    exists pods: seq<nat> :: IsPlacement(s, req, pods) && Sum(pods) == k
  }

  lemma AtMostQuotient(pods: nat, size: int, free: nat)
    ensures size > 0 ==> (pods * size <= free <==> pods <= free / size)
    ensures size <= 0 ==> pods * size <= free
  {
    if size > 0 {
      var q, r := free / size, free % size;
      assert free == q * size + r;
      if pods <= q {
        assert pods * size <= q * size;
      } else {
        assert pods * size >= (q + 1) * size == q * size + size;
      }
    } else {
      assert pods * size <= 0;
    }
  }

  /** A node takes exactly the counts up to its slots. */
  lemma NodeTakesUpToSlots(s: Snapshot, n: Node, req: Requests, pods: nat)
    ensures NodeTakes(s, n, req, pods) <==> pods <= NodeSlots(s, n, req)
  {
    hide Free, StaysWithin;
    var free := HeadroomOn(s, n);
    AtMostQuotient(pods, req.cpuMilli, free.cpuMilli);
    AtMostQuotient(pods, req.memBytes, free.memBytes);
    FreeExact(s, n.allocCpuMilli, n.usedCpuMilli, pods * req.cpuMilli);
    FreeExact(s, n.allocMemBytes, n.usedMemBytes, pods * req.memBytes);
    FreeExact(s, n.allocPods, n.usedPods, pods);
  }

  lemma {:induction false} PlacementBounded(s: Snapshot, req: Requests, pods: seq<nat>)
    requires IsPlacement(s, req, pods)
    ensures Sum(pods) <= FitCount(s, req)
    decreases |pods|
  {
    if pods == [] {
    } else {
      var last := |pods| - 1;
      var shorter := s.(nodes := s.nodes[..last]);
      forall i | 0 <= i < last
        ensures NodeTakes(shorter, shorter.nodes[i], req, pods[..last][i])
      {
        assert NodeTakes(s, s.nodes[i], req, pods[i]);
      }
      PlacementBounded(shorter, req, pods[..last]);
      NodeTakesUpToSlots(s, s.nodes[last], req, pods[last]);
    }
  }

  lemma {:induction false} PlacementExists(s: Snapshot, req: Requests, k: nat) returns (pods: seq<nat>)
    requires k <= FitCount(s, req)
    ensures IsPlacement(s, req, pods) && Sum(pods) == k
    decreases |s.nodes|
  {
    if s.nodes == [] {
      pods := [];
    } else {
      var last := |s.nodes| - 1;
      var shorter := s.(nodes := s.nodes[..last]);
      var here: nat := Min(k, NodeSlots(s, s.nodes[last], req));
      var others := PlacementExists(shorter, req, k - here);
      pods := others + [here];
      assert pods[..last] == others;
      forall i | 0 <= i < |pods|
        ensures NodeTakes(s, s.nodes[i], req, pods[i])
      {
        if i < last {
          assert NodeTakes(shorter, shorter.nodes[i], req, others[i]);
        } else {
          NodeTakesUpToSlots(s, s.nodes[last], req, here);
        }
      }
    }
  }

  /** The count is exactly optimal: that many pods can be placed, and not one more. */
  lemma FitCountIsOptimal(s: Snapshot, req: Requests, k: nat)
    ensures CanPlace(s, req, k) <==> k <= FitCount(s, req)
  {
    if k <= FitCount(s, req) {
      var pods := PlacementExists(s, req, k);
    }
    if CanPlace(s, req, k) {
      var pods: seq<nat> :| IsPlacement(s, req, pods) && Sum(pods) == k;
      PlacementBounded(s, req, pods);
    }
  }

  /** A fifth of 4000m held back leaves room for six pods of 500m, not eight. */
  lemma ReserveIsHeldBack(n: Node)
    requires n == Node("n", 4000, 0, 110, 0, 0, 0, true)
    ensures FitCount(Snapshot([n], 0.2), Requests(500, 0)) == 6
  {
    var s := Snapshot([n], 0.2);
    FitCountSnoc(s, 0, Requests(500, 0));
    assert s.(nodes := s.nodes[..1]) == s && s.nodes[..0] == [];
    NodeTakesUpToSlots(s, n, Requests(500, 0), 6);
    NodeTakesUpToSlots(s, n, Requests(500, 0), 7);
    assert HeldBack(4000, 0.2) == 800 && HeldBack(110, 0.2) == 22;
  }

  lemma TimesIsMonotone(k: nat, a: int, b: int)
    requires a <= b
    ensures k * a <= k * b
  {
  }

  lemma NodeTakesSmaller(s: Snapshot, n: Node, small: Requests, large: Requests, pods: nat)
    requires small.cpuMilli <= large.cpuMilli && small.memBytes <= large.memBytes
    requires NodeTakes(s, n, large, pods)
    ensures NodeTakes(s, n, small, pods)
  {
    TimesIsMonotone(pods, small.cpuMilli, large.cpuMilli);
    TimesIsMonotone(pods, small.memBytes, large.memBytes);
  }

  /** A smaller pod fits at least as often. */
  lemma SmallerFitsMore(s: Snapshot, small: Requests, large: Requests)
    requires small.cpuMilli <= large.cpuMilli && small.memBytes <= large.memBytes
    ensures FitCount(s, large) <= FitCount(s, small)
  {
    var pods := PlacementExists(s, large, FitCount(s, large));
    forall i | 0 <= i < |pods|
      ensures NodeTakes(s, s.nodes[i], small, pods[i])
    {
      NodeTakesSmaller(s, s.nodes[i], small, large, pods[i]);
    }
    PlacementBounded(s, small, pods);
  }

  /** Whether one pod of this size goes on some node. */
  predicate Fits(s: Snapshot, req: Requests) {
    FitCount(s, req) > 0
  }

  lemma {:induction false} FitsMeansSomeNode(s: Snapshot, req: Requests)
    ensures Fits(s, req) <==>
      exists i :: 0 <= i < |s.nodes| && s.nodes[i].schedulable && NodeTakes(s, s.nodes[i], req, 1)
    decreases |s.nodes|
  {
    if s.nodes != [] {
      var last := |s.nodes| - 1;
      var shorter := s.(nodes := s.nodes[..last]);
      FitsMeansSomeNode(shorter, req);
      NodeTakesUpToSlots(s, s.nodes[last], req, 1);
      forall i | 0 <= i < last
        ensures NodeTakes(s, s.nodes[i], req, 1) == NodeTakes(shorter, shorter.nodes[i], req, 1)
      {
      }
      if Fits(s, req) && !Fits(shorter, req) {
        assert s.nodes[last].schedulable && NodeTakes(s, s.nodes[last], req, 1);
      }
      if i :| 0 <= i < |shorter.nodes| && shorter.nodes[i].schedulable && NodeTakes(shorter, shorter.nodes[i], req, 1) {
        assert s.nodes[i].schedulable && NodeTakes(s, s.nodes[i], req, 1);
      }
    }
  }

  // ----- Replicas from measured load -----

  datatype Load = Load(replicas: int, sampled: int, cpuMilli: int, refMilli: int)

  /** Why no target can be derived. */
  datatype NotComputable = UnknownReplicas | NoSamples | NoReference | BadTarget | AlreadyBelowTarget

  function Ratio(l: Load): real {
    if l.refMilli <= 0 then 0.0 else l.cpuMilli as real / l.refMilli as real
  }

  /** current * observed utilisation / target utilisation, before rounding up. */
  function Wanted(l: Load, targetRatio: real): real
    requires targetRatio > 0.0
  {
    l.replicas as real * Ratio(l) / targetRatio
  }

  function TargetReplicas(l: Load, targetRatio: real): Result<int, NotComputable> {
    if l.replicas <= 0 then Err(UnknownReplicas)
    else if l.sampled <= 0 || l.cpuMilli <= 0 then Err(NoSamples)
    else if l.refMilli <= 0 then Err(NoReference)
    else if targetRatio <= 0.0 || targetRatio > 1.0 then Err(BadTarget)
    else if Ratio(l) <= targetRatio then Err(AlreadyBelowTarget)
    else
      var desired := Ceil(Wanted(l, targetRatio));
      Ok(if desired <= l.replicas then l.replicas + 1 else desired)
  }

  /** `n` replicas bring the measured load down to the target utilisation. */
  predicate Relieves(l: Load, targetRatio: real, n: int) {
    l.cpuMilli as real * l.replicas as real <= targetRatio * l.refMilli as real * n as real
  }

  predicate EnoughEvidence(l: Load, targetRatio: real) {
    && l.replicas > 0 && l.sampled > 0 && l.cpuMilli > 0 && l.refMilli > 0
    && 0.0 < targetRatio <= 1.0
    && l.cpuMilli as real > targetRatio * l.refMilli as real
  }

  lemma CeilIsLeast(x: real, n: int)
    ensures n >= Ceil(x) <==> n as real >= x
  {
  }

  lemma QuotientCompare(a: real, b: real, c: real)
    requires b > 0.0
    ensures a / b <= c <==> a <= c * b
  {
    var q := a / b;
    assert a == q * b;
    if q <= c {
      assert q * b <= c * b;
    } else {
      assert q * b > c * b;
    }
  }

  /** n replicas are enough exactly when n is at least the quotient that is rounded up. */
  lemma RelievesWhenAboveQuotient(l: Load, t: real, n: int)
    requires EnoughEvidence(l, t)
    ensures Relieves(l, t, n) <==> n as real >= Wanted(l, t)
  {
    var cpu, ref, r := l.cpuMilli as real, l.refMilli as real, l.replicas as real;
    var ratio := cpu / ref;
    assert ratio * ref == cpu;
    QuotientCompare(r * ratio, t, n as real);
    // r * ratio <= n * t, multiplied through by ref
    var lhs, rhs := r * ratio, n as real * t;
    assert lhs * ref == r * (ratio * ref) == r * cpu;
    assert rhs * ref == t * ref * n as real;
    if lhs <= rhs {
      assert lhs * ref <= rhs * ref;
    } else {
      assert lhs * ref > rhs * ref;
    }
  }

  /** Rounding up never lands on the current count, so the guard after it is never taken. */
  lemma DefensiveBranchUnreachable(l: Load, t: real)
    requires EnoughEvidence(l, t)
    ensures Ceil(Wanted(l, t)) > l.replicas
  {
    RelievesWhenAboveQuotient(l, t, l.replicas);
    CeilIsLeast(Wanted(l, t), l.replicas);
    var r := l.replicas as real;
    assert r * l.cpuMilli as real > r * (t * l.refMilli as real);
    assert !Relieves(l, t, l.replicas);
  }

  lemma ComputableIffEvidence(l: Load, t: real)
    ensures TargetReplicas(l, t).Ok? <==> EnoughEvidence(l, t)
    ensures EnoughEvidence(l, t) ==> TargetReplicas(l, t) == Ok(Ceil(Wanted(l, t)))
  {
    if l.refMilli > 0 {
      QuotientCompare(l.cpuMilli as real, l.refMilli as real, t);
    }
    if EnoughEvidence(l, t) {
      DefensiveBranchUnreachable(l, t);
    }
  }

  /**
   * The derived target is the least replica count that relieves the load, it is
   * always a scale-up, and it exists exactly when there is enough evidence.
   */
  lemma TargetReplicasIsLeast(l: Load, t: real, m: int)
    ensures TargetReplicas(l, t).Ok? <==> EnoughEvidence(l, t)
    ensures EnoughEvidence(l, t) ==>
      var n := TargetReplicas(l, t).value;
      n > l.replicas && (Relieves(l, t, m) <==> m >= n)
  {
    ComputableIffEvidence(l, t);
    if EnoughEvidence(l, t) {
      DefensiveBranchUnreachable(l, t);
      RelievesWhenAboveQuotient(l, t, m);
      CeilIsLeast(Wanted(l, t), m);
    }
  }
}
