/** Carries out a plan on its controller, and undoes one from its record. */
module Executor {
  import opened Prelude
  import opened HealTypes
  import opened Cluster
  import opened HealRecord
  import opened Validator
  import opened ValidatorTheorems

  datatype Management = Unmanaged | ManagedBy(name: string) | Unreadable

  /** What the API server answers while one plan is carried out. */
  datatype Replies = Replies(resolved: Option<ControllerRef>, management: Management, accepted: bool)

  datatype ExecError = NoResolvedController | OwnershipUnknown | GitOpsManaged | PatchFailed | NotExecutable

  datatype RollbackError = NothingToRollBack | RollbackPatchFailed

  datatype Outcome = Outcome(applied: bool, ref: ControllerRef)

  /** The patch a plan stands for; a claim creation and an unknown kind have none. */
  function ChangeOf(p: Plan): Option<Change> {
    match p.kind
    case PatchResources => Some(SetResources(p.container, p.limits, p.requests))
    case PatchImage => Some(SetImage(p.container, p.image))
    case PatchProbe => Some(SetProbe(p.container, p.probeType, p.probe))
    case ScaleReplicas => Some(SetReplicas(p.replicas))
    case RestartWorkload => Some(Restart)
    case _ => None
  }

  /** The patch that puts a record's old values back, chosen by the fields the record carries. */
  function UndoOf(rec: Record): Option<Change> {
    if rec.newImage != "" then
      if rec.oldImage == "" then None else Some(SetImage(rec.container, rec.oldImage))
    else if rec.probeType != NoProbe then
      if rec.oldProbe == map[] then None else Some(SetProbe(rec.container, rec.probeType, rec.oldProbe))
    else if rec.newReplicas > 0 then
      if rec.oldReplicas <= 0 then None else Some(SetReplicas(rec.oldReplicas))
    else if rec.oldLimits == map[] && rec.oldRequests == map[] then None
    else Some(SetResources(rec.container, rec.oldLimits, rec.oldRequests))
  }

  predicate Refused(api: Replies, allowGitOps: bool) {
    api.resolved.None? || (!allowGitOps && !api.management.Unmanaged?)
  }

  /** The workloads an execution leaves behind. */
  function AfterExecute(ws: Workloads, p: Plan, api: Replies, apply: bool, allowGitOps: bool): Workloads {
    if Refused(api, allowGitOps) || ChangeOf(p).None? then ws
    else Patched(ws, api.resolved.value, ChangeOf(p).value, !apply, api.accepted).0
  }

  function AfterRollback(ws: Workloads, rec: Record, apply: bool, accepted: bool): Workloads {
    if UndoOf(rec).None? then ws else Patched(ws, rec.controller, UndoOf(rec).value, !apply, accepted).0
  }

  // ----- What carrying out and putting back mean, value by value -----

  /** The controller has what the plan changes; the claim it creates must not be there yet. */
  predicate Reaches(ws: Workloads, claims: map<(string, string), ClaimSpec>, p: Plan, ref: ControllerRef) {
    match p.kind
    case PatchResources => ref in ws && p.container in ws[ref].containers
    case PatchImage => ref in ws && p.container in ws[ref].containers
    case PatchProbe =>
      ref in ws && p.container in ws[ref].containers && p.probeType in ws[ref].containers[p.container].probes
    case ScaleReplicas => ref in ws && !ref.kind.DaemonSet?
    case RestartWorkload => ref in ws
    case CreatePVC => p.claim.Some? && (p.claim.value.namespace, p.claim.value.name) !in claims
    case _ => false
  }

  /** Exactly when carrying a plan out succeeds. */
  predicate Executes(ws: Workloads, claims: map<(string, string), ClaimSpec>, p: Plan, api: Replies,
                     allowGitOps: bool)
  {
    && api.resolved.Some? && (allowGitOps || api.management.Unmanaged?)
    && Reaches(ws, claims, p, api.resolved.value) && api.accepted
  }

  /** What the plan says of its controller is so, and nothing else about it differs. */
  ghost predicate CarriedOut(w: Workload, p: Plan, w': Workload) {
    match p.kind
    case PatchResources => ResourcesSet(w, p.container, p.limits, p.requests, w')
    case PatchImage => ImageSet(w, p.container, p.image, w')
    case PatchProbe => ProbeSet(w, p.container, p.probeType, p.probe, w')
    case ScaleReplicas => ReplicasSet(w, p.replicas, w')
    case RestartWorkload => Restarted(w, w')
    case _ => w' == w
  }

  /** Carried out on this controller, and no other touched. */
  ghost predicate CarriedOutOn(ws: Workloads, p: Plan, ref: ControllerRef, ws': Workloads) {
    OnlyWorkload(ws, ref, ws') && CarriedOut(ws[ref], p, ws'[ref])
  }

  /** The record says what to put back: for a heal of its kind, what was there before. */
  predicate HasUndo(rec: Record) {
    if rec.newImage != "" then rec.oldImage != ""
    else if rec.probeType != NoProbe then rec.oldProbe != map[]
    else if rec.newReplicas > 0 then rec.oldReplicas > 0
    else rec.oldLimits != map[] || rec.oldRequests != map[]
  }

  /** The controller still has what the record puts back into. */
  predicate StillHas(w: Workload, rec: Record) {
    if rec.newImage != "" then rec.container in w.containers
    else if rec.probeType != NoProbe then
      rec.container in w.containers && rec.probeType in w.containers[rec.container].probes
    else if rec.newReplicas > 0 then !rec.controller.kind.DaemonSet?
    else rec.container in w.containers
  }

  /** The recorded keys have their recorded values, and nothing else about the controller differs. */
  ghost predicate PutBack(w: Workload, rec: Record, w': Workload) {
    if rec.newImage != "" then ImageSet(w, rec.container, rec.oldImage, w')
    else if rec.probeType != NoProbe then ProbeSet(w, rec.container, rec.probeType, rec.oldProbe, w')
    else if rec.newReplicas > 0 then ReplicasSet(w, rec.oldReplicas, w')
    else ResourcesSet(w, rec.container, rec.oldLimits, rec.oldRequests, w')
  }

  predicate CanPutBack(ws: Workloads, rec: Record) {
    HasUndo(rec) && rec.controller in ws && StillHas(ws[rec.controller], rec)
  }

  ghost predicate PutBackOn(ws: Workloads, rec: Record, ws': Workloads) {
    OnlyWorkload(ws, rec.controller, ws') && PutBack(ws[rec.controller], rec, ws'[rec.controller])
  }

  /** The undo puts back exactly what was recorded. */
  lemma UndoIsExact(rec: Record, w: Workload)
    ensures UndoOf(rec).Some? <==> HasUndo(rec)
    ensures UndoOf(rec).Some? ==>
      && (Applicable(rec.controller, w, UndoOf(rec).value) <==> StillHas(w, rec))
      && forall w' :: Does(w, UndoOf(rec).value, w') <==> PutBack(w, rec, w')
  {
    hide ImageSet, ProbeSet, ReplicasSet, ResourcesSet;
  }

  /** The change is exactly what the plan says. */
  lemma ChangeIsExact(p: Plan, ref: ControllerRef, w: Workload)
    requires ChangeOf(p).Some?
    ensures Applicable(ref, w, ChangeOf(p).value) <==> Reaches(map[ref := w], map[], p, ref)
    ensures forall w' :: Does(w, ChangeOf(p).value, w') <==> CarriedOut(w, p, w')
  {
    hide ImageSet, ProbeSet, ReplicasSet, ResourcesSet;
  }

  lemma OnlyWorkloadExact(ws: Workloads, ref: ControllerRef, w: Workload, ws': Workloads)
    requires ref in ws
    ensures OnlyWorkload(ws, ref, ws') && ws'[ref] == w <==> ws' == ws[ref := w]
  {
    if OnlyWorkload(ws, ref, ws') && ws'[ref] == w {
      assert ws' == ws[ref := w];
    }
  }

  /** Carrying a plan out leaves behind what AfterExecute gives. */
  lemma ExecutedAsGiven(ws: Workloads, claims: map<(string, string), ClaimSpec>, p: Plan, api: Replies,
                        allowGitOps: bool, ws': Workloads)
    requires !Executes(ws, claims, p, api, allowGitOps) ==> ws' == ws
    requires p.kind.CreatePVC? ==> ws' == ws
    requires Executes(ws, claims, p, api, allowGitOps) && !p.kind.CreatePVC? ==>
      CarriedOutOn(ws, p, api.resolved.value, ws')
    ensures ws' == AfterExecute(ws, p, api, true, allowGitOps)
  {
    hide ImageSet, ProbeSet, ReplicasSet, ResourcesSet, Apply;
    if !Refused(api, allowGitOps) && ChangeOf(p).Some? && api.resolved.value in ws {
      var ref := api.resolved.value;
      ChangeIsExact(p, ref, ws[ref]);
      if Executes(ws, claims, p, api, allowGitOps) {
        ApplyDoes(ref, ws[ref], ChangeOf(p).value, ws'[ref]);
        OnlyWorkloadExact(ws, ref, ws'[ref], ws');
      }
    }
  }

  /** Putting a record back leaves behind what AfterRollback gives. */
  lemma PutBackAsGiven(ws: Workloads, rec: Record, accepted: bool, ws': Workloads)
    ensures ws' == AfterRollback(ws, rec, true, accepted) <==>
      if CanPutBack(ws, rec) && accepted then PutBackOn(ws, rec, ws') else ws' == ws
  {
    hide ImageSet, ProbeSet, ReplicasSet, ResourcesSet, Apply, HasUndo, StillHas, PutBack, UndoOf;
    if rec.controller in ws {
      var ref := rec.controller;
      UndoIsExact(rec, ws[ref]);
      if CanPutBack(ws, rec) {
        var undo := UndoOf(rec).value;
        OnlyWorkloadExact(ws, ref, Apply(ws[ref], undo), ws');
        ApplyDoes(ref, ws[ref], undo, Apply(ws[ref], undo));
        if ref in ws' {
          ApplyDoes(ref, ws[ref], undo, ws'[ref]);
        }
      }
    } else if UndoOf(rec).Some? {
      assert !CanPutBack(ws, rec);
    }
  }

  class Executor {
    const client: Client
    /** When false every change is a dry run. */
    const apply: bool
    const allowGitOps: bool

    constructor (client: Client, apply: bool, allowGitOps: bool)
      ensures this.client == client && this.apply == apply && this.allowGitOps == allowGitOps
    {
      this.client := client;
      this.apply := apply;
      this.allowGitOps := allowGitOps;
    }

    method Execute(p: Plan, api: Replies) returns (r: Result<Outcome, ExecError>)
      modifies client`workloads, client`claims
      ensures r.Ok? <==> Executes(old(client.workloads), old(client.claims), p, api, allowGitOps)
      ensures r.Ok? && apply && !p.kind.CreatePVC? ==>
        CarriedOutOn(old(client.workloads), p, api.resolved.value, client.workloads)
      ensures !apply || p.kind.CreatePVC? ==> client.workloads == old(client.workloads)
      ensures r.Ok? ==> api.resolved == Some(r.value.ref) && r.value.applied == apply
      ensures r.Err? ==> client.workloads == old(client.workloads) && client.claims == old(client.claims)
      ensures r.Err? && r.error.GitOpsManaged? ==> !allowGitOps && api.management.ManagedBy?
      ensures p.kind.CreatePVC? && p.claim.Some? && r.Ok? && apply ==>
        client.claims == old(client.claims)[(p.claim.value.namespace, p.claim.value.name) := p.claim.value]
      ensures !p.kind.CreatePVC? || !apply ==> client.claims == old(client.claims)
    {
      hide ResourcesSet, ImageSet, ProbeSet, ReplicasSet, Restarted, OnlyWorkload, Patched;
      if api.resolved.None? {
        return Err(NoResolvedController);
      }
      var ctrl := api.resolved.value;
      if ctrl in client.workloads && ChangeOf(p).Some? {
        ChangeIsExact(p, ctrl, client.workloads[ctrl]);
      }
      if !allowGitOps {
        if api.management.Unreadable? {
          return Err(OwnershipUnknown);
        }
        if api.management.ManagedBy? {
          return Err(GitOpsManaged);
        }
      }
      var ok: bool;
      match p.kind {
        case PatchResources =>
          ok := client.Patch(ctrl, SetResources(p.container, p.limits, p.requests), !apply, api.accepted);
        case PatchImage =>
          ok := client.Patch(ctrl, SetImage(p.container, p.image), !apply, api.accepted);
        case PatchProbe =>
          ok := client.Patch(ctrl, SetProbe(p.container, p.probeType, p.probe), !apply, api.accepted);
        case ScaleReplicas =>
          ok := client.Patch(ctrl, SetReplicas(p.replicas), !apply, api.accepted);
        case RestartWorkload =>
          ok := client.Patch(ctrl, Restart, !apply, api.accepted);
        case CreatePVC =>
          if p.claim.None? {
            return Err(NotExecutable);
          }
          ok := client.CreateClaim(p.claim.value, !apply, api.accepted);
        case _ =>
          return Err(NotExecutable);
      }
      if !ok {
        return Err(PatchFailed);
      }
      r := Ok(Outcome(apply, ctrl));
    }

    method Rollback(rec: Record, accepted: bool) returns (r: Result<(), RollbackError>)
      modifies client`workloads
      ensures r.Ok? <==> CanPutBack(old(client.workloads), rec) && accepted
      ensures r.Ok? && apply ==> PutBackOn(old(client.workloads), rec, client.workloads)
      ensures !apply ==> client.workloads == old(client.workloads)
      ensures r == Err(NothingToRollBack) <==> !HasUndo(rec)
      ensures r.Err? ==> client.workloads == old(client.workloads)
    {
      hide ResourcesSet, ImageSet, ProbeSet, ReplicasSet, OnlyWorkload, Patched;
      if rec.controller in client.workloads {
        UndoIsExact(rec, client.workloads[rec.controller]);
      }
      var undo: Change;
      if rec.newImage != "" {
        if rec.oldImage == "" {
          return Err(NothingToRollBack);
        }
        undo := SetImage(rec.container, rec.oldImage);
      } else if rec.probeType != NoProbe {
        if rec.oldProbe == map[] {
          return Err(NothingToRollBack);
        }
        undo := SetProbe(rec.container, rec.probeType, rec.oldProbe);
      } else if rec.newReplicas > 0 {
        if rec.oldReplicas <= 0 {
          return Err(NothingToRollBack);
        }
        undo := SetReplicas(rec.oldReplicas);
      } else {
        if rec.oldLimits == map[] && rec.oldRequests == map[] {
          return Err(NothingToRollBack);
        }
        undo := SetResources(rec.container, rec.oldLimits, rec.oldRequests);
      }
      var ok := client.Patch(rec.controller, undo, !apply, accepted);
      r := if ok then Ok(()) else Err(RollbackPatchFailed);
    }
  }

  // ----- A rollback undoes the heal it was recorded for -----

  predicate Recorded(kind: ActionKind) {
    kind.PatchResources? || kind.PatchImage? || kind.PatchProbe? || kind.ScaleReplicas?
  }

  /** The evidence shows the replica count and the patched container as the controller has them. */
  ghost predicate FreshEvidence(b: Bundle, w: Workload, container: string) {
    && b.replicas == w.replicas
    && (container in w.containers ==> Shows(b.containers, container, w.containers[container]))
  }

  /** The saved memory of a heal, every field of it: what it was for, what it wrote, what was there before. */
  ghost predicate IsRecordOf(rec: Record, p: Plan, ref: ControllerRef, b: Bundle, kind: string, a: Action,
                             confidence: string, due: int)
  {
    && rec.controller == ref && rec.container == p.container && rec.kind == kind && rec.verifyAfter == due
    && rec.action == Some(Encoded(a)) && rec.confidence == confidence
    && rec.oldReplicas == (if p.kind.ScaleReplicas? then b.replicas else 0)
    && exists before :: ShownAs(b.containers, p.container, before) && Remembers(rec, p, before)
  }

  lemma SameProbeValues(x: ProbeFields, y: ProbeFields, was: Option<ProbeInfo>, changed: ProbeFields)
    requires KeepsProbe(x, was, changed) && KeepsProbe(y, was, changed)
    ensures x == y
  {
    assert forall f :: f in x <==> f in y;
  }

  lemma SameOldValues(x: Resources, y: Resources, was: Option<Resources>, changed: Resources)
    requires KeepsOld(x, was, changed) && KeepsOld(y, was, changed)
    ensures x == y
  {
    assert forall k :: Get(x, k) == Get(y, k);
    assert forall k :: k in x <==> Get(x, k).Some?;
  }

  /** There is one such record. */
  lemma RecordIsExact(rec: Record, p: Plan, ref: ControllerRef, b: Bundle, now: int, verifyAfter: int, kind: string,
                      a: Action, confidence: string)
    ensures IsRecordOf(rec, p, ref, b, kind, a, confidence, now + verifyAfter) <==>
      rec == SavedRecord(p, ref, b, FindContainer(b.containers, p.container), now, verifyAfter, kind, a, confidence)
  {
    hide KeepsOld, KeepsProbe, OldValues, OldProbeValues, Shows;
    var found := FindContainer(b.containers, p.container);
    var saved := SavedRecord(p, ref, b, found, now, verifyAfter, kind, a, confidence);
    FoundAsShown(b.containers, p.container, found);
    RecordRemembers(p, ref, found, now, verifyAfter);
    assert Remembers(saved, p, found);
    if IsRecordOf(rec, p, ref, b, kind, a, confidence, now + verifyAfter) {
      var before :| ShownAs(b.containers, p.container, before) && Remembers(rec, p, before);
      FoundAsShown(b.containers, p.container, before);
      SameOldValues(rec.oldLimits, saved.oldLimits, LimitsOf(found), p.limits);
      SameOldValues(rec.oldRequests, saved.oldRequests, RequestsOf(found), p.requests);
      if p.kind.PatchProbe? {
        SameProbeValues(rec.oldProbe, saved.oldProbe, ProbeOf(found, p.probeType), p.probe);
      }
    }
  }

  /** `after` puts the changed values back but keeps those `raised` introduced. */
  predicate RestoredResources(before: Resources, raised: Resources, after: Resources) {
    && after.Keys == before.Keys + raised.Keys
    && forall k | k in after :: after[k] == if k in before then before[k] else raised[k]
  }

  predicate SameExceptResources(c: Container, c': Container) {
    c'.image == c.image && c'.probes == c.probes
  }

  /** The workload after heal and rollback: as before, but for resource keys the heal introduced. */
  predicate Restored(w: Workload, p: Plan, after: Workload) {
    if !p.kind.PatchResources? then after == w
    else
      && p.container in w.containers
      && after.replicas == w.replicas && after.restarts == w.restarts
      && after.containers.Keys == w.containers.Keys
      && (forall name | name in w.containers && name != p.container :: after.containers[name] == w.containers[name])
      && SameExceptResources(w.containers[p.container], after.containers[p.container])
      && RestoredResources(w.containers[p.container].limits, p.limits, after.containers[p.container].limits)
      && RestoredResources(w.containers[p.container].requests, p.requests, after.containers[p.container].requests)
  }

  /** No changed resource had a value before the heal. */
  predicate NothingHadAValue(w: Workload, p: Plan) {
    && p.kind.PatchResources? && p.container in w.containers
    && p.limits.Keys !! w.containers[p.container].limits.Keys
    && p.requests.Keys !! w.containers[p.container].requests.Keys
  }

  /** The record's fields always select the undo of the plan's own kind. */
  lemma UndoMatchesPlan(p: Plan, ctrl: ControllerRef, b: Bundle, confidence: string, a: Action, opts: Options,
                        now: int, verifyAfter: int, kind: string)
    requires Accepts(b, confidence, a, opts, p) && Recorded(p.kind)
    ensures var before := FindContainer(b.containers, p.container);
      var undo := UndoOf(SavedRecord(p, ctrl, b, before, now, verifyAfter, kind, a, confidence));
      match p.kind
      case PatchImage =>
        && before.Some? && before.value.image != ""
        && undo == Some(SetImage(p.container, before.value.image))
      case PatchProbe =>
        && before.Some? && p.probeType in before.value.probes
        && undo == Some(SetProbe(p.container, p.probeType, ProbeValues(before.value.probes[p.probeType], p.probe)))
      case ScaleReplicas => undo == Some(SetReplicas(b.replicas)) && b.replicas > 0
      case _ =>
        && before.Some?
        && undo == (var limits := Pick(before.value.limits, p.limits);
                    var requests := Pick(before.value.requests, p.requests);
                    if limits == map[] && requests == map[] then None
                    else Some(SetResources(p.container, limits, requests)))
  {
    AcceptedPlanIsWellShaped(b, confidence, a, opts, p);
    if p.kind.PatchProbe? {
      ProbeOnlyLoosens(b, confidence, a, opts, p);
      var values := ProbeValues(FindContainer(b.containers, p.container).value.probes[p.probeType], p.probe);
      assert values.Keys == p.probe.Keys;
    }
  }

  lemma MergeThenRestore(cur: ProbeInfo, fields: ProbeFields)
    ensures cur.Merge(fields).Merge(ProbeValues(cur, fields)) == cur
  {
  }

  lemma RaiseThenRestore(before: Resources, raised: Resources)
    ensures RestoredResources(before, raised, before + raised + Pick(before, raised))
  {
  }

  lemma PickEmpty(from: Resources, changed: Resources)
    ensures Pick(from, changed) == map[] <==> changed.Keys !! from.Keys
  {
    if k :| k in changed.Keys && k in from.Keys {
      assert k in Pick(from, changed);
    }
  }

  lemma UndoImage(w: Workload, name: string, image: string)
    requires name in w.containers
    ensures Apply(Apply(w, SetImage(name, image)), SetImage(name, w.containers[name].image)) == w
  {
    var c := w.containers[name];
    assert c.(image := image).(image := c.image) == c;
    assert w.containers[name := c.(image := image)][name := c] == w.containers;
  }

  lemma UndoProbe(w: Workload, name: string, pt: ProbeType, fields: ProbeFields)
    requires name in w.containers && pt in w.containers[name].probes
    ensures var undo := SetProbe(name, pt, ProbeValues(w.containers[name].probes[pt], fields));
      Apply(Apply(w, SetProbe(name, pt, fields)), undo) == w
  {
    var c := w.containers[name];
    var cur := c.probes[pt];
    MergeThenRestore(cur, fields);
    assert c.probes[pt := cur.Merge(fields)][pt := cur] == c.probes;
    assert w.containers[name := c.(probes := c.probes[pt := cur.Merge(fields)])][name := c] == w.containers;
  }

  lemma UndoResources(w: Workload, p: Plan)
    requires p.kind.PatchResources? && p.container in w.containers
    ensures var c := w.containers[p.container];
      Restored(w, p, Apply(Apply(w, SetResources(p.container, p.limits, p.requests)),
                           SetResources(p.container, Pick(c.limits, p.limits), Pick(c.requests, p.requests))))
  {
    var c := w.containers[p.container];
    RaiseThenRestore(c.limits, p.limits);
    RaiseThenRestore(c.requests, p.requests);
  }

  /** On a controller that is as the evidence showed it, the recorded undo leads back. */
  lemma UndoRestoresWorkload(w: Workload, p: Plan, ctrl: ControllerRef, b: Bundle, confidence: string, a: Action,
                             opts: Options, now: int, verifyAfter: int, kind: string)
    requires Accepts(b, confidence, a, opts, p) && Recorded(p.kind)
    requires FreshEvidence(b, w, p.container) && Applicable(ctrl, w, ChangeOf(p).value)
    ensures
      var before := FindContainer(b.containers, p.container);
      var rec := SavedRecord(p, ctrl, b, before, now, verifyAfter, kind, a, confidence);
      var healed := Apply(w, ChangeOf(p).value);
      && (UndoOf(rec).None? <==> NothingHadAValue(w, p))
      && (UndoOf(rec).Some? ==>
            Applicable(ctrl, healed, UndoOf(rec).value) && Restored(w, p, Apply(healed, UndoOf(rec).value)))
  {
    hide Accepts, Shows, SavedRecord, UndoOf, Pick, ProbeValues, RestoredResources;
    UndoMatchesPlan(p, ctrl, b, confidence, a, opts, now, verifyAfter, kind);
    if p.container in w.containers {
      FindContainerExact(b.containers, p.container, w.containers[p.container]);
    }
    match p.kind {
      case PatchImage =>
        UndoImage(w, p.container, p.image);
      case PatchProbe =>
        UndoProbe(w, p.container, p.probeType, p.probe);
      case ScaleReplicas =>
      case PatchResources =>
        UndoResources(w, p);
        PickEmpty(w.containers[p.container].limits, p.limits);
        PickEmpty(w.containers[p.container].requests, p.requests);
    }
  }

  /**
   * Heal, record, roll back: every changed key that had a value has it again, keys the
   * heal introduced stay, nothing else moves; and there is nothing to roll back
   * exactly when no changed key had a value.
   */
  lemma RollbackInvertsHeal(ws: Workloads, healed: Workloads, p: Plan, ref: ControllerRef, b: Bundle,
                            confidence: string, a: Action, opts: Options, rec: Record, kind: string, due: int)
    requires Accepts(b, confidence, a, opts, p) && !p.kind.RestartWorkload? && !p.kind.CreatePVC?
    requires CarriedOutOn(ws, p, ref, healed) && Reaches(ws, map[], p, ref)
    requires FreshEvidence(b, ws[ref], p.container)
    requires IsRecordOf(rec, p, ref, b, kind, a, confidence, due)
    ensures HasUndo(rec) <==> !NothingHadAValue(ws[ref], p)
    ensures HasUndo(rec) ==> CanPutBack(healed, rec)
    ensures forall after | HasUndo(rec) && PutBackOn(healed, rec, after) ::
      OnlyWorkload(ws, ref, after) && Restored(ws[ref], p, after[ref])
  {
    hide Accepts, Restored, CarriedOut, PutBack, NothingHadAValue, HasUndo, StillHas, Reaches, FreshEvidence, Apply,
      SavedRecord, UndoOf, Does, Shows, Remembers;
    var w := ws[ref];
    RecordIsExact(rec, p, ref, b, due, 0, kind, a, confidence);
    AcceptedHasChange(ws, b, confidence, a, opts, p, ref, healed[ref]);
    UndoRestoresWorkload(w, p, ref, b, confidence, a, opts, due, 0, kind);
    UndoIsExact(rec, healed[ref]);
    if UndoOf(rec).Some? {
      var back := Apply(healed[ref], UndoOf(rec).value);
      forall w' {
        ApplyDoes(ref, healed[ref], UndoOf(rec).value, w');
      }
    }
  }

  lemma AcceptedHasChange(ws: Workloads, b: Bundle, confidence: string, a: Action, opts: Options, p: Plan,
                          ref: ControllerRef, w': Workload)
    requires Accepts(b, confidence, a, opts, p) && !p.kind.RestartWorkload? && !p.kind.CreatePVC?
    requires Reaches(ws, map[], p, ref) && ref in ws
    ensures Recorded(p.kind) && ChangeOf(p).Some? && Applicable(ref, ws[ref], ChangeOf(p).value)
    ensures CarriedOut(ws[ref], p, w') <==> w' == Apply(ws[ref], ChangeOf(p).value)
  {
    var w := ws[ref];
    hide CarriedOut, Apply, Does;
    AcceptedByItsKind(b, confidence, a, opts, p);
    ChangeIsExact(p, ref, w);
    ApplyDoes(ref, w, ChangeOf(p).value, w');
  }
}
