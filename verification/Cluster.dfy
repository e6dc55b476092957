/**
 * The part of the cluster heals change: controllers' pod templates and replica
 * counts, and volume claims. The API server's own answer to a request is a
 * parameter of every call.
 */
module Cluster {
  import opened HealTypes

  datatype ControllerKind = Deployment | StatefulSet | DaemonSet

  datatype ControllerRef = ControllerRef(kind: ControllerKind, name: string, namespace: string)

  datatype Workload = Workload(replicas: int, containers: map<string, Container>, restarts: nat)

  type Workloads = map<ControllerRef, Workload>

  /** One strategic merge patch: the named fields replace the template's, the rest stay. */
  datatype Change =
    | SetResources(container: string, limits: Resources, requests: Resources)
    | SetImage(container: string, image: string)
    | SetProbe(container: string, probeType: ProbeType, fields: ProbeFields)
    | SetReplicas(replicas: int)
    | Restart

  /** The patches that name something the controller has. */
  predicate Applicable(ref: ControllerRef, w: Workload, c: Change) {
    match c
    case SetResources(container, _, _) => container in w.containers
    case SetImage(container, _) => container in w.containers
    case SetProbe(container, pt, _) => container in w.containers && pt in w.containers[container].probes
    case SetReplicas(_) => !ref.kind.DaemonSet?
    case Restart => true
  }

  function Merge(was: Container, c: Change): Container {
    match c
    case SetResources(_, limits, requests) => was.(limits := was.limits + limits, requests := was.requests + requests)
    case SetImage(_, image) => was.(image := image)
    case SetProbe(_, pt, fields) =>
      if pt in was.probes then was.(probes := was.probes[pt := was.probes[pt].Merge(fields)]) else was
    case _ => was
  }

  function Apply(w: Workload, c: Change): Workload {
    match c
    case SetReplicas(n) => w.(replicas := n)
    case Restart => w.(restarts := w.restarts + 1)
    case _ =>
      if c.container in w.containers then
        w.(containers := w.containers[c.container := Merge(w.containers[c.container], c)])
      else w
  }

  /** What a patch request leaves behind, and whether it succeeded. */
  function Patched(ws: Workloads, ref: ControllerRef, c: Change, dryRun: bool, accepted: bool): (Workloads, bool) {
    if accepted && ref in ws && Applicable(ref, ws[ref], c) then
      (if dryRun then ws else ws[ref := Apply(ws[ref], c)], true)
    else (ws, false)
  }

  // ----- What a patch does, value by value -----

  /** The written keys hold what was written, the others what they held. */
  predicate Overwritten<K(==), V(==)>(before: map<K, V>, written: map<K, V>, after: map<K, V>) {
    && after.Keys == before.Keys + written.Keys
    && forall k | k in after :: after[k] == if k in written then written[k] else before[k]
  }

  /** Nothing of the workload differs but this container. */
  predicate OnlyContainer(w: Workload, name: string, w': Workload) {
    && w'.replicas == w.replicas && w'.restarts == w.restarts
    && name in w.containers && w'.containers.Keys == w.containers.Keys
    && forall other | other in w.containers && other != name :: w'.containers[other] == w.containers[other]
  }

  predicate ResourcesSet(w: Workload, name: string, limits: Resources, requests: Resources, w': Workload) {
    && OnlyContainer(w, name, w')
    && var c, c' := w.containers[name], w'.containers[name];
       && c'.image == c.image && c'.probes == c.probes
       && Overwritten(c.limits, limits, c'.limits) && Overwritten(c.requests, requests, c'.requests)
  }

  predicate ImageSet(w: Workload, name: string, image: string, w': Workload) {
    && OnlyContainer(w, name, w')
    && var c, c' := w.containers[name], w'.containers[name];
       c'.image == image && c'.limits == c.limits && c'.requests == c.requests && c'.probes == c.probes
  }

  ghost predicate ProbeSet(w: Workload, name: string, pt: ProbeType, fields: ProbeFields, w': Workload) {
    && OnlyContainer(w, name, w')
    && var c, c' := w.containers[name], w'.containers[name];
       && c'.image == c.image && c'.limits == c.limits && c'.requests == c.requests
       && pt in c.probes && c'.probes.Keys == c.probes.Keys
       && (forall other | other in c.probes && other != pt :: c'.probes[other] == c.probes[other])
       && forall f: ProbeField :: c'.probes[pt].Field(f) == if f in fields then fields[f] else c.probes[pt].Field(f)
  }

  predicate ReplicasSet(w: Workload, n: int, w': Workload) {
    w'.replicas == n && w'.containers == w.containers && w'.restarts == w.restarts
  }

  predicate Restarted(w: Workload, w': Workload) {
    w'.restarts == w.restarts + 1 && w'.containers == w.containers && w'.replicas == w.replicas
  }

  ghost predicate Does(w: Workload, c: Change, w': Workload) {
    match c
    case SetResources(name, limits, requests) => ResourcesSet(w, name, limits, requests, w')
    case SetImage(name, image) => ImageSet(w, name, image, w')
    case SetProbe(name, pt, fields) => ProbeSet(w, name, pt, fields, w')
    case SetReplicas(n) => ReplicasSet(w, n, w')
    case Restart => Restarted(w, w')
  }

  /** No workload differs but this one. */
  predicate OnlyWorkload(ws: Workloads, ref: ControllerRef, ws': Workloads) {
    && ref in ws && ws'.Keys == ws.Keys
    && forall other | other in ws && other != ref :: ws'[other] == ws[other]
  }

  lemma OverwrittenIsUpdated<K, V>(before: map<K, V>, written: map<K, V>, after: map<K, V>)
    ensures Overwritten(before, written, after) <==> after == before + written
  {
  }

  lemma SameProbe(p: ProbeInfo, q: ProbeInfo)
    requires forall f: ProbeField :: p.Field(f) == q.Field(f)
    ensures p == q
  {
    assert p.Field(InitialDelaySeconds) == q.Field(InitialDelaySeconds);
    assert p.Field(PeriodSeconds) == q.Field(PeriodSeconds);
    assert p.Field(TimeoutSeconds) == q.Field(TimeoutSeconds);
    assert p.Field(FailureThreshold) == q.Field(FailureThreshold);
  }

  /** One container replaced by another. */
  lemma OnlyContainerExact(w: Workload, name: string, c: Container, w': Workload)
    requires name in w.containers
    ensures OnlyContainer(w, name, w') && w'.containers[name] == c <==> w' == w.(containers := w.containers[name := c])
  {
    if OnlyContainer(w, name, w') && w'.containers[name] == c {
      assert w'.containers == w.containers[name := c];
    }
  }

  lemma MergeIsExact(was: Container, c: Change, now: Container)
    requires c.SetProbe? && c.probeType in was.probes
    ensures now == Merge(was, c) <==>
      && now.image == was.image && now.limits == was.limits && now.requests == was.requests
      && now.probes.Keys == was.probes.Keys
      && (forall other | other in was.probes && other != c.probeType :: now.probes[other] == was.probes[other])
      && forall f: ProbeField ::
           now.probes[c.probeType].Field(f)
             == if f in c.fields then c.fields[f] else was.probes[c.probeType].Field(f)
  {
    var pt := c.probeType;
    var merged := was.probes[pt].Merge(c.fields);
    if now != Merge(was, c) && pt in now.probes
       && forall f: ProbeField ::
            now.probes[pt].Field(f) == if f in c.fields then c.fields[f] else was.probes[pt].Field(f) {
      SameProbe(now.probes[pt], merged);
      assert now.probes.Keys == was.probes.Keys
        && (forall other | other in was.probes && other != pt :: now.probes[other] == was.probes[other])
        ==> now.probes == was.probes[pt := merged];
    }
  }

  /** A patch of what the controller has does exactly what it says. */
  lemma ApplyDoes(ref: ControllerRef, w: Workload, c: Change, w': Workload)
    requires Applicable(ref, w, c)
    ensures Does(w, c, w') <==> w' == Apply(w, c)
  {
    if c.SetResources? || c.SetImage? || c.SetProbe? {
      var was := w.containers[c.container];
      OnlyContainerExact(w, c.container, Merge(was, c), w');
      if c.container in w'.containers {
        var now := w'.containers[c.container];
        if c.SetProbe? {
          MergeIsExact(was, c, now);
        } else if c.SetResources? {
          OverwrittenIsUpdated(was.limits, c.limits, now.limits);
          OverwrittenIsUpdated(was.requests, c.requests, now.requests);
        }
      }
    }
  }

  class Client {
    var workloads: Workloads
    var claims: map<(string, string), ClaimSpec>

    constructor (workloads: Workloads)
      ensures this.workloads == workloads && claims == map[]
    {
      this.workloads := workloads;
      claims := map[];
    }

    method Patch(ref: ControllerRef, c: Change, dryRun: bool, accepted: bool) returns (ok: bool)
      modifies this`workloads
      ensures ok <==> accepted && ref in old(workloads) && Applicable(ref, old(workloads)[ref], c)
      ensures ok && !dryRun ==>
        OnlyWorkload(old(workloads), ref, workloads) && Does(old(workloads)[ref], c, workloads[ref])
      ensures !ok || dryRun ==> workloads == old(workloads)
      ensures (workloads, ok) == Patched(old(workloads), ref, c, dryRun, accepted)
    {
      if ref in workloads && Applicable(ref, workloads[ref], c) {
        ApplyDoes(ref, workloads[ref], c, Apply(workloads[ref], c));
      }
      ok := accepted && ref in workloads && Applicable(ref, workloads[ref], c);
      if ok && !dryRun {
        workloads := workloads[ref := Apply(workloads[ref], c)];
      }
    }

    /** Creation only: an existing claim is never touched. */
    method CreateClaim(claim: ClaimSpec, dryRun: bool, accepted: bool) returns (ok: bool)
      modifies this`claims
      ensures ok <==> accepted && (claim.namespace, claim.name) !in old(claims)
      ensures claims == if ok && !dryRun then old(claims)[(claim.namespace, claim.name) := claim] else old(claims)
    {
      ok := accepted && (claim.namespace, claim.name) !in claims;
      if ok && !dryRun {
        claims := claims[(claim.namespace, claim.name) := claim];
      }
    }
  }
}
