/** The persisted memory of an applied heal: what it changed and what to put back. */
module HealRecord {
  import opened Prelude
  import opened HealTypes
  import opened Cluster

  datatype Record = Record(
    controller: ControllerRef,
    container: string,
    kind: string,   // the detected problem being fixed
    oldLimits: Resources, oldRequests: Resources, newLimits: Resources, newRequests: Resources,
    oldImage: string, newImage: string,
    probeType: ProbeType, oldProbe: ProbeFields, newProbe: ProbeFields,
    oldReplicas: int, newReplicas: int,
    verifyAfter: int,
    action: Option<Blob>,
    confidence: string)
  {
    function ControllerKey(): string {
      KeyOf(controller)
    }
  }

  function KindName(k: ControllerKind): string {
    match k
    case Deployment => "Deployment"
    case StatefulSet => "StatefulSet"
    case DaemonSet => "DaemonSet"
  }

  /** The join key of a workload, independent of any pod. */
  function KeyOf(ref: ControllerRef): string {
    ref.namespace + "/" + KindName(ref.kind) + "/" + ref.name
  }

  lemma KeyInParts(ref: ControllerRef)
    ensures KeyOf(ref) == ref.namespace + ("/" + (KindName(ref.kind) + ("/" + ref.name)))
  {
    Reassociate(ref.namespace, KindName(ref.kind), ref.name);
  }

  lemma Reassociate(a: string, b: string, c: string)
    ensures a + "/" + b + "/" + c == a + ("/" + (b + ("/" + c)))
  {
  }

  lemma KindNamesDiffer(a: ControllerKind, b: ControllerKind)
    ensures '/' !in KindName(a)
    ensures KindName(a) == KindName(b) ==> a == b
  {
    assert |KindName(a)| == if a.Deployment? then 10 else if a.StatefulSet? then 11 else 9;
    assert |KindName(b)| == if b.Deployment? then 10 else if b.StatefulSet? then 11 else 9;
  }

  /** Kubernetes names hold no slash, so distinct controllers have distinct keys. */
  lemma KeysDistinguishControllers(a: ControllerRef, b: ControllerRef)
    requires '/' !in a.namespace && '/' !in b.namespace
    requires KeyOf(a) == KeyOf(b)
    ensures a == b
  {
    KeyInParts(a);
    KeyInParts(b);
    FirstSeparator('/', a.namespace, KindName(a.kind) + ("/" + a.name), b.namespace, KindName(b.kind) + ("/" + b.name));
    KindNamesDiffer(a.kind, b.kind);
    KindNamesDiffer(b.kind, a.kind);
    FirstSeparator('/', KindName(a.kind), a.name, KindName(b.kind), b.name);
  }

  // ----- Building the record -----

  /** The from-values of exactly the keys that changed. */
  function Pick(from: Resources, changed: Resources): Resources {
    map k | k in changed && k in from :: from[k]
  }

  method PickChanged(from: Resources, changed: Resources) returns (picked: Resources)
    ensures picked == Pick(from, changed)
  {
    picked := map[];
    var left := changed.Keys;
    while left != {}
      invariant left <= changed.Keys
      invariant picked == map k | k in changed && k !in left && k in from :: from[k]
    {
      var k :| k in left;
      left := left - {k};
      if k in from {
        picked := picked[k := from[k]];
      }
    }
  }

  function ProbeValues(cur: ProbeInfo, changed: ProbeFields): ProbeFields {
    map f | f in changed :: cur.Field(f)
  }

  method CurrentProbeFields(cur: Option<ProbeInfo>, changed: ProbeFields) returns (values: ProbeFields)
    ensures values == if cur.None? then map[] else ProbeValues(cur.value, changed)
  {
    values := map[];
    if cur.None? {
      return;
    }
    var left := changed.Keys;
    while left != {}
      invariant left <= changed.Keys
      invariant values == map f | f in changed && f !in left :: cur.value.Field(f)
    {
      var f :| f in left;
      left := left - {f};
      values := values[f := cur.value.Field(f)];
    }
  }

  function LimitsOf(c: Option<Container>): Option<Resources> {
    if c.Some? then Some(c.value.limits) else None
  }

  function RequestsOf(c: Option<Container>): Option<Resources> {
    if c.Some? then Some(c.value.requests) else None
  }

  function ProbeOf(c: Option<Container>, pt: ProbeType): Option<ProbeInfo> {
    if c.Some? && pt in c.value.probes then Some(c.value.probes[pt]) else None
  }

  function OldValues(was: Option<Resources>, changed: Resources): Resources {
    if was.Some? then Pick(was.value, changed) else map[]
  }

  function OldProbeValues(was: Option<ProbeInfo>, changed: ProbeFields): ProbeFields {
    if was.Some? then ProbeValues(was.value, changed) else map[]
  }

  /** `before` is the container as the evidence showed it; its values are the ones to restore. */
  function RecordOf(p: Plan, ctrl: ControllerRef, before: Option<Container>, now: int, verifyAfter: int): Record {
    var image, probe := p.kind.PatchImage?, p.kind.PatchProbe?;
    Record(ctrl, p.container, "",
           OldValues(LimitsOf(before), p.limits), OldValues(RequestsOf(before), p.requests), p.limits, p.requests,
           if image && before.Some? then before.value.image else "", if image then p.image else "",
           if probe then p.probeType else NoProbe,
           if probe then OldProbeValues(ProbeOf(before, p.probeType), p.probe) else map[],
           if probe then p.probe else map[],
           0, if p.kind.ScaleReplicas? then p.replicas else 0,
           now + verifyAfter, None, "")
  }

  /** `kept` says of each changed key what it was, if it was anything. */
  ghost predicate KeepsOld(kept: Resources, was: Option<Resources>, changed: Resources) {
    forall k :: Get(kept, k) == if k in changed && was.Some? then Get(was.value, k) else None
  }

  /** Likewise of each changed field of a probe; a probe that was not there had none. */
  ghost predicate KeepsProbe(kept: ProbeFields, was: Option<ProbeInfo>, changed: ProbeFields) {
    forall f: ProbeField :: if f in kept then f in changed && was.Some? && kept[f] == was.value.Field(f)
                            else f !in changed || was.None?
  }

  ghost predicate RemembersResources(rec: Record, p: Plan, before: Option<Container>) {
    && rec.newLimits == p.limits && rec.newRequests == p.requests
    && KeepsOld(rec.oldLimits, LimitsOf(before), p.limits)
    && KeepsOld(rec.oldRequests, RequestsOf(before), p.requests)
  }

  predicate RemembersImage(rec: Record, p: Plan, before: Option<Container>) {
    && rec.newImage == (if p.kind.PatchImage? then p.image else "")
    && rec.oldImage == (if p.kind.PatchImage? && before.Some? then before.value.image else "")
  }

  ghost predicate RemembersProbe(rec: Record, p: Plan, before: Option<Container>) {
    if p.kind.PatchProbe? then
      && rec.probeType == p.probeType && rec.newProbe == p.probe
      && KeepsProbe(rec.oldProbe, ProbeOf(before, p.probeType), p.probe)
    else rec.probeType == NoProbe && rec.newProbe == map[] && rec.oldProbe == map[]
  }

  /** What the record says the heal changes, what it says was there before, and that it says nothing of other kinds. */
  ghost predicate Remembers(rec: Record, p: Plan, before: Option<Container>) {
    && RemembersResources(rec, p, before) && RemembersImage(rec, p, before) && RemembersProbe(rec, p, before)
    && rec.newReplicas == (if p.kind.ScaleReplicas? then p.replicas else 0)
  }

  lemma OldValuesKept(was: Option<Resources>, changed: Resources)
    ensures KeepsOld(OldValues(was, changed), was, changed)
  {
  }

  lemma OldProbeKept(was: Option<ProbeInfo>, changed: ProbeFields)
    ensures KeepsProbe(OldProbeValues(was, changed), was, changed)
  {
  }

  lemma RecordRemembers(p: Plan, ctrl: ControllerRef, before: Option<Container>, now: int, verifyAfter: int)
    ensures Remembers(RecordOf(p, ctrl, before, now, verifyAfter), p, before)
  {
    hide KeepsOld, KeepsProbe, OldValues, OldProbeValues;
    OldValuesKept(LimitsOf(before), p.limits);
    OldValuesKept(RequestsOf(before), p.requests);
    OldProbeKept(ProbeOf(before, p.probeType), p.probe);
  }

  method RecordFromPlan(p: Plan, ctrl: ControllerRef, before: Option<Container>, now: int, verifyAfter: int)
    returns (rec: Record)
    ensures Remembers(rec, p, before)
    ensures rec.controller == ctrl && rec.container == p.container && rec.verifyAfter == now + verifyAfter
    ensures rec == RecordOf(p, ctrl, before, now, verifyAfter)
  {
    hide Remembers, Pick, ProbeValues;
    RecordRemembers(p, ctrl, before, now, verifyAfter);
    rec := Record(ctrl, p.container, "", map[], map[], p.limits, p.requests, "", "", NoProbe, map[], map[], 0, 0,
                  now + verifyAfter, None, "");
    if before.Some? {
      var limits := PickChanged(before.value.limits, p.limits);
      var requests := PickChanged(before.value.requests, p.requests);
      rec := rec.(oldLimits := limits, oldRequests := requests);
    }
    if p.kind.PatchImage? {
      rec := rec.(newImage := p.image);
      if before.Some? {
        rec := rec.(oldImage := before.value.image);
      }
    }
    if p.kind.PatchProbe? {
      rec := rec.(probeType := p.probeType, newProbe := p.probe);
      if before.Some? {
        var values := CurrentProbeFields(ProbeOf(before, p.probeType), p.probe);
        rec := rec.(oldProbe := values);
      }
    }
    if p.kind.ScaleReplicas? {
      rec := rec.(newReplicas := p.replicas);
    }
  }

  /** The record the agent saves: the pre-scale count comes from the evidence. */
  function SavedRecord(p: Plan, ctrl: ControllerRef, b: Bundle, before: Option<Container>, now: int, verifyAfter: int,
                       kind: string, a: Action, confidence: string): Record
  {
    var rec := RecordOf(p, ctrl, before, now, verifyAfter);
    rec.(kind := kind, oldReplicas := if p.kind.ScaleReplicas? then b.replicas else rec.oldReplicas,
         action := Some(Encoded(a)), confidence := confidence)
  }

  lemma SavedForController(p: Plan, ctrl: ControllerRef, b: Bundle, before: Option<Container>, now: int,
                           verifyAfter: int, kind: string, a: Action, confidence: string)
    ensures SavedRecord(p, ctrl, b, before, now, verifyAfter, kind, a, confidence).controller == ctrl
  {
  }

  // ----- The verification decision -----

  datatype Verdict = Pending | Healthy | Rollback

  function VerifyVerdict(rec: Record, now: int, stillFailing: bool): Verdict {
    if now < rec.verifyAfter then Pending else if stillFailing then Rollback else Healthy
  }
}
