/**
 * Heals, re-heals, verifications and rollbacks as steps over the cluster's
 * workloads and the pending records, and what every run of them keeps.
 */
module Lifecycle {
  import opened Prelude
  import opened HealTypes
  import opened Cluster
  import opened HealRecord
  import opened Executor
  import opened Validator
  import opened ValidatorTheorems
  import Capacity
  import ImageRef

  datatype Config = Config(opts: Options, verifyAfter: int, allowGitOps: bool)

  datatype State = State(workloads: Workloads, pending: map<string, Record>)

  /**
   * A proposal judged on evidence, the key of the pod's controller as the breaker was
   * told it, what the API server answers, and whether its record could be saved; or
   * the check of a pending record, and whether it could be deleted afterwards.
   */
  datatype Event =
    | Heal(b: Bundle, confidence: string, a: Action, kind: string, now: int, seen: Option<string>, api: Replies,
           saved: bool)
    | Verify(key: string, now: int, stillFailing: bool, accepted: bool, deleted: bool)

  /** The patch was accepted and persisted. */
  predicate Lands(ws: Workloads, p: Plan, api: Replies, allowGitOps: bool) {
    && !Refused(api, allowGitOps) && ChangeOf(p).Some?
    && Patched(ws, api.resolved.value, ChangeOf(p).value, false, api.accepted).1
  }

  function AfterHeal(cfg: Config, s: State, p: Plan, e: Event): State
    requires e.Heal?
  {
    var ws := AfterExecute(s.workloads, p, e.api, true, cfg.allowGitOps);
    if Lands(s.workloads, p, e.api, cfg.allowGitOps) && Recorded(p.kind) && e.saved then
      var ctrl := e.api.resolved.value;
      var rec := SavedRecord(p, ctrl, e.b, FindContainer(e.b.containers, p.container), e.now, cfg.verifyAfter,
                             e.kind, e.a, e.confidence);
      State(ws, s.pending[KeyOf(ctrl) := rec])
    else State(ws, s.pending)
  }

  function Retired(s: State, e: Event): State
    requires e.Verify?
  {
    if e.deleted then s.(pending := s.pending - {e.key}) else s
  }

  /** A verified record is retired; a failed one is rolled back and retired only if that worked. */
  function AfterVerify(s: State, e: Event): State
    requires e.Verify?
  {
    if e.key !in s.pending then s else
      var rec := s.pending[e.key];
      match VerifyVerdict(rec, e.now, e.stillFailing)
      case Pending => s
      case Healthy => Retired(s, e)
      case Rollback =>
        var undone := UndoOf(rec).Some? && Patched(s.workloads, rec.controller, UndoOf(rec).value, false, e.accepted).1;
        var after := s.(workloads := AfterRollback(s.workloads, rec, true, e.accepted));
        if undone then Retired(after, e) else after
  }

  function Next(cfg: Config, s: State, e: Event): State {
    match e
    case Heal(b, confidence, a, _, _, _, _, _) =>
      var verdict := Validate(b, confidence, a, cfg.opts);
      if verdict.Err? then s else AfterHeal(cfg, s, verdict.value, e)
    case Verify(_, _, _, _, _) => AfterVerify(s, e)
  }

  // ----- The envelope -----

  /** Between where a value started and its cap; a value the heal introduced is under its cap. */
  predicate ValueInEnvelope(start: Option<int>, v: int, cap: int) {
    match start
    case Some(v0) => v0 <= v && (cap > 0 ==> v <= Max(v0, cap))
    case None => v > 0 && (cap > 0 ==> v <= cap)
  }

  predicate RaisesInEnvelope(opts: Options, start: Resources, raised: Resources) {
    forall k | k in raised :: !k.Extended? && ValueInEnvelope(Get(start, k), raised[k], CapOf(opts, k))
  }

  predicate ResourcesInEnvelope(opts: Options, start: Resources, r: Resources) {
    && start.Keys <= r.Keys
    && forall k | k in r ::
         if k.Extended? then k in start && r[k] == start[k]
         else ValueInEnvelope(Get(start, k), r[k], CapOf(opts, k))
  }

  ghost predicate ProbeInEnvelope(opts: Options, start: ProbeInfo, p: ProbeInfo) {
    forall f :: ValueInEnvelope(Some(start.Field(f)), p.Field(f), FieldOr0(opts.maxProbe, f))
  }

  ghost predicate ContainerInEnvelope(opts: Options, start: Container, c: Container) {
    && ImageRef.Parse(c.image).repo == ImageRef.Parse(start.image).repo
    && ResourcesInEnvelope(opts, start.limits, c.limits)
    && ResourcesInEnvelope(opts, start.requests, c.requests)
    && c.probes.Keys == start.probes.Keys
    && forall pt | pt in c.probes :: ProbeInEnvelope(opts, start.probes[pt], c.probes[pt])
  }

  ghost predicate WorkloadInEnvelope(opts: Options, start: Workload, w: Workload) {
    && ValueInEnvelope(Some(start.replicas), w.replicas, opts.maxReplicas)
    && w.containers.Keys == start.containers.Keys
    && forall name {:trigger ContainerInEnvelope(opts, start.containers[name], w.containers[name])}
         | name in w.containers ::
         ContainerInEnvelope(opts, start.containers[name], w.containers[name])
  }

  /** A patch whose values all lie in the envelope of the workload it goes to. */
  ghost predicate ChangeInEnvelope(opts: Options, start: Workload, c: Change) {
    match c
    case SetResources(name, limits, requests) =>
      && name in start.containers
      && RaisesInEnvelope(opts, start.containers[name].limits, limits)
      && RaisesInEnvelope(opts, start.containers[name].requests, requests)
    case SetImage(name, image) =>
      name in start.containers && ImageRef.Parse(image).repo == ImageRef.Parse(start.containers[name].image).repo
    case SetProbe(name, pt, fields) =>
      && name in start.containers && pt in start.containers[name].probes
      && forall f | f in fields ::
           ValueInEnvelope(Some(start.containers[name].probes[pt].Field(f)), fields[f], FieldOr0(opts.maxProbe, f))
    case SetReplicas(n) => ValueInEnvelope(Some(start.replicas), n, opts.maxReplicas)
    case Restart => true
  }

  /** Every workload, and every old value a pending record would put back, is in its envelope. */
  ghost predicate InEnvelope(opts: Options, start: Workloads, s: State) {
    && s.workloads.Keys == start.Keys
    && (forall ref {:trigger WorkloadInEnvelope(opts, start[ref], s.workloads[ref])} | ref in s.workloads ::
          WorkloadInEnvelope(opts, start[ref], s.workloads[ref]))
    && forall key {:trigger RecordInEnvelope(opts, start, s.pending[key])} | key in s.pending ::
         RecordInEnvelope(opts, start, s.pending[key])
  }

  ghost predicate RecordInEnvelope(opts: Options, start: Workloads, rec: Record) {
    rec.controller in start && (UndoOf(rec).Some? ==> ChangeInEnvelope(opts, start[rec.controller], UndoOf(rec).value))
  }

  // ----- One step -----

  lemma MergeKeepsEnvelope(opts: Options, start: Container, c: Container, w0: Workload, change: Change)
    requires ContainerInEnvelope(opts, start, c) && ChangeInEnvelope(opts, w0, change)
    requires change.SetResources? || change.SetImage? || change.SetProbe?
    requires w0.containers[change.container] == start
    ensures ContainerInEnvelope(opts, start, Merge(c, change))
  {
    hide ValueInEnvelope, ImageRef.Parse, CapOf;
    if change.SetProbe? && change.probeType in c.probes {
      var pt := change.probeType;
      var merged := c.probes[pt].Merge(change.fields);
      forall f
        ensures ValueInEnvelope(Some(start.probes[pt].Field(f)), merged.Field(f), FieldOr0(opts.maxProbe, f))
      {
        assert ValueInEnvelope(Some(start.probes[pt].Field(f)), c.probes[pt].Field(f), FieldOr0(opts.maxProbe, f));
        assert merged.Field(f) == if f in change.fields then change.fields[f] else c.probes[pt].Field(f);
      }
    }
  }

  lemma ReplaceKeepsEnvelope(opts: Options, start: Workload, w: Workload, name: string, c: Container)
    requires WorkloadInEnvelope(opts, start, w) && name in w.containers
    requires ContainerInEnvelope(opts, start.containers[name], c)
    ensures WorkloadInEnvelope(opts, start, w.(containers := w.containers[name := c]))
  {
    hide ContainerInEnvelope, ValueInEnvelope;
    var after := w.(containers := w.containers[name := c]);
    forall other | other in after.containers
      ensures ContainerInEnvelope(opts, start.containers[other], after.containers[other])
    {
      if other != name {
        assert ContainerInEnvelope(opts, start.containers[other], w.containers[other]);
      }
    }
    assert after.containers.Keys == w.containers.Keys;
  }

  lemma ApplyKeepsEnvelope(opts: Options, start: Workload, w: Workload, c: Change)
    requires WorkloadInEnvelope(opts, start, w) && ChangeInEnvelope(opts, start, c)
    ensures WorkloadInEnvelope(opts, start, Apply(w, c))
  {
    if c.SetResources? || c.SetImage? || c.SetProbe? {
      var merged := Merge(w.containers[c.container], c);
      assert ContainerInEnvelope(opts, start.containers[c.container], w.containers[c.container]);
      MergeKeepsEnvelope(opts, start.containers[c.container], w.containers[c.container], start, c);
      ReplaceKeepsEnvelope(opts, start, w, c.container, merged);
    }
  }

  /** Evidence that shows values the workload has had at some time. */
  ghost predicate EvidenceInEnvelope(opts: Options, start: Workload, b: Bundle) {
    && (forall name, c | name in start.containers && Shows(b.containers, name, c) ::
          ContainerInEnvelope(opts, start.containers[name], c))
    && (b.replicas > 0 ==> ValueInEnvelope(Some(start.replicas), b.replicas, opts.maxReplicas))
  }

  lemma RaisesFromEvidence(opts: Options, start: Resources, seen: Resources, raised: Resources,
                           memory: Proposed, cpu: Proposed)
    requires ResourcesInEnvelope(opts, start, seen)
    requires IsBoundedRaise(raised, seen, memory, cpu, opts)
    ensures RaisesInEnvelope(opts, start, raised)
    ensures RaisesInEnvelope(opts, start, Pick(seen, raised))
  {
  }

  lemma LooseningFromEvidence(opts: Options, start: ProbeInfo, seen: ProbeInfo, fields: ProbeFields,
                              a: Action, f: ProbeField)
    requires ProbeInEnvelope(opts, start, seen) && IsLoosening(fields, seen, a, opts) && f in fields
    ensures ValueInEnvelope(Some(start.Field(f)), fields[f], FieldOr0(opts.maxProbe, f))
    ensures ValueInEnvelope(Some(start.Field(f)), ProbeValues(seen, fields)[f], FieldOr0(opts.maxProbe, f))
  {
    assert LoosenedField(fields, f, seen, a, opts);
  }

  /** The evidence shows this container, in its envelope. */
  ghost predicate SeenInEnvelope(opts: Options, start: Workload, b: Bundle, name: string, seen: Container) {
    && Shows(b.containers, name, seen)
    && name in start.containers && ContainerInEnvelope(opts, start.containers[name], seen)
  }

  lemma RaisesStayIn(opts: Options, start: Workload, b: Bundle, confidence: string, a: Action, p: Plan, seen: Container)
    requires Accepts(b, confidence, a, opts, p) && p.kind.PatchResources?
    requires SeenInEnvelope(opts, start, b, p.container, seen)
    ensures ChangeInEnvelope(opts, start, SetResources(p.container, p.limits, p.requests))
    ensures ChangeInEnvelope(opts, start,
              SetResources(p.container, Pick(seen.limits, p.limits), Pick(seen.requests, p.requests)))
  {
    hide Shows, IsSchedulable, IsBoundedRaise, ResourcesInEnvelope, RaisesInEnvelope, Pick;
    AcceptedByItsKind(b, confidence, a, opts, p);
    ResourcePatchExact(b, a, opts, p);
    FindContainerExact(b.containers, p.container, seen);
    TargetExact(b, a, p.container, seen);
    var cur :| Targets(b, a, p.container, cur)
      && IsBoundedRaise(p.limits, cur.limits, a.memoryLimit, a.cpuLimit, opts)
      && IsBoundedRaise(p.requests, cur.requests, a.memoryRequest, a.cpuRequest, opts);
    TargetExact(b, a, p.container, cur);
    var was := start.containers[p.container];
    RaisesFromEvidence(opts, was.limits, seen.limits, p.limits, a.memoryLimit, a.cpuLimit);
    RaisesFromEvidence(opts, was.requests, seen.requests, p.requests, a.memoryRequest, a.cpuRequest);
  }

  lemma ImageStaysIn(opts: Options, start: Workload, b: Bundle, confidence: string, a: Action, p: Plan, seen: Container)
    requires Accepts(b, confidence, a, opts, p) && p.kind.PatchImage?
    requires SeenInEnvelope(opts, start, b, p.container, seen)
    ensures ChangeInEnvelope(opts, start, SetImage(p.container, p.image))
    ensures ChangeInEnvelope(opts, start, SetImage(p.container, seen.image))
  {
    hide Accepts, Shows, ResourcesInEnvelope, ProbeInEnvelope, ImageRef.Parse;
    ImageStaysInRepository(b, confidence, a, opts, p);
    var c :| Shows(b.containers, p.container, c) && IsVersionChange(c.image, p.image);
    FindContainerExact(b.containers, p.container, seen);
    FindContainerExact(b.containers, p.container, c);
  }

  lemma LooseningStaysIn(opts: Options, start: Workload, b: Bundle, confidence: string, a: Action, p: Plan,
                         seen: Container)
    requires Accepts(b, confidence, a, opts, p) && p.kind.PatchProbe?
    requires SeenInEnvelope(opts, start, b, p.container, seen)
    ensures ChangeInEnvelope(opts, start, SetProbe(p.container, p.probeType, p.probe))
    ensures p.probeType in seen.probes
    ensures ChangeInEnvelope(opts, start,
              SetProbe(p.container, p.probeType, ProbeValues(seen.probes[p.probeType], p.probe)))
  {
    hide Accepts, Shows, ResourcesInEnvelope, ValueInEnvelope, LoosenedField, NamesProbe;
    ProbeOnlyLoosens(b, confidence, a, opts, p);
    var c :| Shows(b.containers, p.container, c) && p.probeType in c.probes
      && IsLoosening(p.probe, c.probes[p.probeType], a, opts);
    FindContainerExact(b.containers, p.container, seen);
    FindContainerExact(b.containers, p.container, c);
    var was := start.containers[p.container];
    forall f | f in p.probe {
      LooseningFromEvidence(opts, was.probes[p.probeType], seen.probes[p.probeType], p.probe, a, f);
    }
  }

  /** What an accepted plan writes, and what its record would put back, are both in the envelope. */
  lemma PlanInEnvelope(opts: Options, start: Workload, b: Bundle, confidence: string, a: Action, p: Plan,
                       ctrl: ControllerRef, now: int, verifyAfter: int, kind: string)
    requires Accepts(b, confidence, a, opts, p) && ChangeOf(p).Some?
    requires EvidenceInEnvelope(opts, start, b)
    requires p.container != "" ==> p.container in start.containers
    ensures ChangeInEnvelope(opts, start, ChangeOf(p).value)
    ensures Recorded(p.kind) ==>
      var before := FindContainer(b.containers, p.container);
      var undo := UndoOf(SavedRecord(p, ctrl, b, before, now, verifyAfter, kind, a, confidence));
      undo.Some? ==> ChangeInEnvelope(opts, start, undo.value)
  {
    hide Accepts, Shows, SavedRecord, UndoOf, Pick, ProbeValues, ContainerInEnvelope, RaisesInEnvelope, PolicyAllows,
      Capacity.CanPlace;
    AcceptedPlanIsWellShaped(b, confidence, a, opts, p);
    if Recorded(p.kind) {
      UndoMatchesPlan(p, ctrl, b, confidence, a, opts, now, verifyAfter, kind);
    }
    if p.kind.ScaleReplicas? {
      ScaleStaysIn(opts, start, b, confidence, a, p);
    } else if p.container != "" {
      var seen :| Targets(b, a, p.container, seen);
      FindContainerExact(b.containers, p.container, seen);
      match p.kind {
        case PatchResources => RaisesStayIn(opts, start, b, confidence, a, p, seen);
        case PatchImage => ImageStaysIn(opts, start, b, confidence, a, p, seen);
        case PatchProbe => LooseningStaysIn(opts, start, b, confidence, a, p, seen);
      }
    }
  }

  lemma ScaleStaysIn(opts: Options, start: Workload, b: Bundle, confidence: string, a: Action, p: Plan)
    requires Accepts(b, confidence, a, opts, p) && p.kind.ScaleReplicas?
    requires b.replicas > 0 ==> ValueInEnvelope(Some(start.replicas), b.replicas, opts.maxReplicas)
    ensures b.replicas > 0 && ValueInEnvelope(Some(start.replicas), p.replicas, opts.maxReplicas)
  {
    AcceptedScaleIsAllowed(b, confidence, a, opts, p);
    AcceptedByItsKind(b, confidence, a, opts, p);
    ScaleExact(b, a, opts, p.replicas);
  }

  /** Replacing one workload and one record by others in their envelopes. */
  lemma ReplaceInState(opts: Options, start: Workloads, s: State, ref: ControllerRef, w: Workload)
    requires InEnvelope(opts, start, s) && ref in start && WorkloadInEnvelope(opts, start[ref], w)
    ensures InEnvelope(opts, start, s.(workloads := s.workloads[ref := w]))
  {
    var after := s.(workloads := s.workloads[ref := w]);
    forall other | other in after.workloads
      ensures WorkloadInEnvelope(opts, start[other], after.workloads[other])
    {
      if other != ref {
        assert WorkloadInEnvelope(opts, start[other], s.workloads[other]);
      }
    }
    forall key | key in after.pending
      ensures RecordInEnvelope(opts, start, after.pending[key])
    {
      assert RecordInEnvelope(opts, start, s.pending[key]);
    }
  }

  lemma RetireInState(opts: Options, start: Workloads, s: State, key: string)
    requires InEnvelope(opts, start, s)
    ensures InEnvelope(opts, start, s.(pending := s.pending - {key}))
  {
    var after := s.(pending := s.pending - {key});
    forall other | other in after.pending
      ensures RecordInEnvelope(opts, start, after.pending[other])
    {
      assert RecordInEnvelope(opts, start, s.pending[other]);
    }
    forall ref | ref in after.workloads
      ensures WorkloadInEnvelope(opts, start[ref], after.workloads[ref])
    {
      assert WorkloadInEnvelope(opts, start[ref], s.workloads[ref]);
    }
  }

  lemma RecordInState(opts: Options, start: Workloads, s: State, key: string, rec: Record)
    requires InEnvelope(opts, start, s) && RecordInEnvelope(opts, start, rec)
    ensures InEnvelope(opts, start, s.(pending := s.pending[key := rec]))
  {
    var after := s.(pending := s.pending[key := rec]);
    forall other | other in after.pending
      ensures RecordInEnvelope(opts, start, after.pending[other])
    {
      if other != key {
        assert RecordInEnvelope(opts, start, s.pending[other]);
      }
    }
    forall ref | ref in after.workloads
      ensures WorkloadInEnvelope(opts, start[ref], after.workloads[ref])
    {
      assert WorkloadInEnvelope(opts, start[ref], s.workloads[ref]);
    }
  }

  lemma VerifyKeepsEnvelope(opts: Options, start: Workloads, s: State, e: Event)
    requires InEnvelope(opts, start, s) && e.Verify?
    ensures InEnvelope(opts, start, AfterVerify(s, e))
  {
    if e.key in s.pending {
      var rec := s.pending[e.key];
      RetireInState(opts, start, s, e.key);
      assert RecordInEnvelope(opts, start, rec);
      if UndoOf(rec).Some? {
        var w, undo := s.workloads[rec.controller], UndoOf(rec).value;
        assert WorkloadInEnvelope(opts, start[rec.controller], w);
        ApplyKeepsEnvelope(opts, start[rec.controller], w, undo);
        ReplaceInState(opts, start, s, rec.controller, Apply(w, undo));
        RetireInState(opts, start, s.(workloads := s.workloads[rec.controller := Apply(w, undo)]), e.key);
      }
    }
  }

  /** A heal either lands, changing its own controller and perhaps its own record, or changes nothing. */
  lemma HealEffect(cfg: Config, s: State, p: Plan, e: Event)
    requires e.Heal?
    ensures var after := AfterHeal(cfg, s, p, e);
      if !Lands(s.workloads, p, e.api, cfg.allowGitOps) then after == s
      else
        var ctrl := e.api.resolved.value;
        && ctrl in s.workloads && Applicable(ctrl, s.workloads[ctrl], ChangeOf(p).value)
        && after.workloads == s.workloads[ctrl := Apply(s.workloads[ctrl], ChangeOf(p).value)]
        && after.pending ==
             if !Recorded(p.kind) || !e.saved then s.pending
             else s.pending[KeyOf(ctrl) := SavedRecord(p, ctrl, e.b, FindContainer(e.b.containers, p.container), e.now,
                                                       cfg.verifyAfter, e.kind, e.a, e.confidence)]
  {
  }

  lemma HealKeepsEnvelope(cfg: Config, start: Workloads, s: State, e: Event, p: Plan)
    requires InEnvelope(cfg.opts, start, s) && e.Heal?
    requires Accepts(e.b, e.confidence, e.a, cfg.opts, p)
    requires e.api.resolved.Some? && e.api.resolved.value in start ==>
      EvidenceInEnvelope(cfg.opts, start[e.api.resolved.value], e.b)
    ensures InEnvelope(cfg.opts, start, AfterHeal(cfg, s, p, e))
  {
    hide Accepts, ContainerInEnvelope, ChangeInEnvelope, EvidenceInEnvelope, SavedRecord, UndoOf, Apply;
    HealEffect(cfg, s, p, e);
    if Lands(s.workloads, p, e.api, cfg.allowGitOps) {
      var ctrl := e.api.resolved.value;
      var w, change := s.workloads[ctrl], ChangeOf(p).value;
      var rec := SavedRecord(p, ctrl, e.b, FindContainer(e.b.containers, p.container), e.now, cfg.verifyAfter,
                             e.kind, e.a, e.confidence);
      AcceptedPlanIsWellShaped(e.b, e.confidence, e.a, cfg.opts, p);
      assert WorkloadInEnvelope(cfg.opts, start[ctrl], w);
      assert p.container != "" ==> p.container in w.containers;
      PlanInEnvelope(cfg.opts, start[ctrl], e.b, e.confidence, e.a, p, ctrl, e.now, cfg.verifyAfter, e.kind);
      ApplyKeepsEnvelope(cfg.opts, start[ctrl], w, change);
      ReplaceInState(cfg.opts, start, s, ctrl, Apply(w, change));
      if Recorded(p.kind) && e.saved {
        SavedForController(p, ctrl, e.b, FindContainer(e.b.containers, p.container), e.now, cfg.verifyAfter,
                           e.kind, e.a, e.confidence);
        RecordInState(cfg.opts, start, s.(workloads := s.workloads[ctrl := Apply(w, change)]), KeyOf(ctrl), rec);
      }
    }
  }

  lemma HealStepKeepsEnvelope(cfg: Config, start: Workloads, s: State, e: Event)
    requires InEnvelope(cfg.opts, start, s) && e.Heal?
    requires e.api.resolved.Some? && e.api.resolved.value in start ==>
      EvidenceInEnvelope(cfg.opts, start[e.api.resolved.value], e.b)
    ensures InEnvelope(cfg.opts, start, Next(cfg, s, e))
  {
    var verdict := Validate(e.b, e.confidence, e.a, cfg.opts);
    if verdict.Ok? {
      HealKeepsEnvelope(cfg, start, s, e, verdict.value);
    }
  }

  // ----- Every run -----

  /** The evidence shows containers and a replica count the workload had at some state, not necessarily the latest. */
  ghost predicate ReadFrom(b: Bundle, containersOf: Workload, replicasOf: Workload) {
    && (forall name, c | name in containersOf.containers && Shows(b.containers, name, c) ::
          c == containersOf.containers[name])
    && (b.replicas > 0 ==> b.replicas == replicasOf.replicas)
  }

  lemma PastEvidenceInEnvelope(opts: Options, start: Workloads, b: Bundle, ctrl: ControllerRef, s: State, s': State)
    requires InEnvelope(opts, start, s) && InEnvelope(opts, start, s') && ctrl in start
    requires ReadFrom(b, s.workloads[ctrl], s'.workloads[ctrl])
    ensures EvidenceInEnvelope(opts, start[ctrl], b)
  {
    var w, w' := s.workloads[ctrl], s'.workloads[ctrl];
    assert WorkloadInEnvelope(opts, start[ctrl], w) && WorkloadInEnvelope(opts, start[ctrl], w');
    forall name | name in w.containers
      ensures ContainerInEnvelope(opts, start[ctrl].containers[name], w.containers[name])
    {
    }
  }

  /**
   * The evidence was in its workload's envelope from the start, or shows what the
   * workload had at states of the run.
   */
  ghost predicate EvidenceKnown(opts: Options, start: Workloads, states: seq<State>, i: nat, e: Event)
    requires i < |states|
  {
    e.Heal? && e.api.resolved.Some? && e.api.resolved.value in start ==>
      var ctrl := e.api.resolved.value;
      || EvidenceInEnvelope(opts, start[ctrl], e.b)
      || exists j, k | 0 <= j <= i && 0 <= k <= i && ctrl in states[j].workloads && ctrl in states[k].workloads ::
           ReadFrom(e.b, states[j].workloads[ctrl], states[k].workloads[ctrl])
  }

  ghost predicate AllEvidenceKnown(opts: Options, start: Workloads, states: seq<State>, events: seq<Event>)
    requires |states| == |events| + 1
  {
    forall i: nat {:trigger EvidenceKnown(opts, start, states, i, events[i])} | i < |events| ::
      EvidenceKnown(opts, start, states, i, events[i])
  }

  ghost predicate StepAt(cfg: Config, states: seq<State>, events: seq<Event>, i: nat)
    requires i < |events| && |states| == |events| + 1
  {
    states[i + 1] == Next(cfg, states[i], events[i])
  }

  /** Heals and verifications one after another, with no outside edits between them. */
  ghost predicate IsTrace(cfg: Config, states: seq<State>, events: seq<Event>) {
    && |states| == |events| + 1
    && forall i: nat | i < |events| :: StepAt(cfg, states, events, i)
  }

  lemma TraceSnoc(cfg: Config, states: seq<State>, events: seq<Event>, e: Event)
    requires IsTrace(cfg, states, events)
    ensures IsTrace(cfg, states + [Next(cfg, states[|events|], e)], events + [e])
  {
    var longer := states + [Next(cfg, states[|events|], e)];
    forall i: nat | i < |events + [e]|
      ensures StepAt(cfg, longer, events + [e], i)
    {
      if i < |events| {
        assert StepAt(cfg, states, events, i);
      }
    }
  }

  /**
   * A trace from a state in the envelope of the starting values, such as one an
   * earlier process left behind, whose heals saw evidence the workloads really showed.
   */
  ghost predicate IsRun(cfg: Config, start: Workloads, states: seq<State>, events: seq<Event>) {
    && IsTrace(cfg, states, events)
    && InEnvelope(cfg.opts, start, states[0])
    && AllEvidenceKnown(cfg.opts, start, states, events)
  }

  lemma StartInEnvelope(opts: Options, ws: Workloads)
    ensures InEnvelope(opts, ws, State(ws, map[]))
  {
  }

  /** Over every run each workload stays in the envelope of its starting values, rollbacks still to come included. */
  lemma {:induction false} RunStaysInEnvelope(cfg: Config, start: Workloads, states: seq<State>, events: seq<Event>,
                                              n: nat)
    requires IsRun(cfg, start, states, events) && n < |states|
    ensures InEnvelope(cfg.opts, start, states[n])
  {
    hide InEnvelope, EvidenceInEnvelope, ReadFrom, AfterHeal, AfterVerify, Validate;
    if n > 0 {
      RunStaysInEnvelope(cfg, start, states, events, n - 1);
      var s, e := states[n - 1], events[n - 1];
      assert StepAt(cfg, states, events, n - 1) && EvidenceKnown(cfg.opts, start, states, n - 1, events[n - 1]);
      if e.Verify? {
        VerifyKeepsEnvelope(cfg.opts, start, s, e);
      } else {
        if e.api.resolved.Some? && e.api.resolved.value in start {
          var ctrl := e.api.resolved.value;
          if !EvidenceInEnvelope(cfg.opts, start[ctrl], e.b) {
            var j, k :| 0 <= j <= n - 1 && 0 <= k <= n - 1 && ctrl in states[j].workloads && ctrl in states[k].workloads
              && ReadFrom(e.b, states[j].workloads[ctrl], states[k].workloads[ctrl]);
            RunStaysInEnvelope(cfg, start, states, events, j);
            RunStaysInEnvelope(cfg, start, states, events, k);
            PastEvidenceInEnvelope(cfg.opts, start, e.b, ctrl, states[j], states[k]);
          }
        }
        HealStepKeepsEnvelope(cfg, start, s, e);
      }
    }
  }

  /**
   * A first process starts with nothing pending, the next one where the first stopped,
   * its records still pending: both stay in the envelope of the very first values.
   */
  lemma RestartStaysInEnvelope(cfg: Config, states: seq<State>, events: seq<Event>, later: seq<State>,
                               after: seq<Event>, n: nat)
    requires IsTrace(cfg, states, events) && states[0].pending == map[]
    requires IsTrace(cfg, later, after) && later[0] == states[|events|] && n < |later|
    requires AllEvidenceKnown(cfg.opts, states[0].workloads, states, events)
    requires AllEvidenceKnown(cfg.opts, states[0].workloads, later, after)
    ensures InEnvelope(cfg.opts, states[0].workloads, later[n])
  {
    hide StepAt, InEnvelope, AllEvidenceKnown;
    var start := states[0].workloads;
    StartInEnvelope(cfg.opts, start);
    assert states[0] == State(start, map[]);
    RunStaysInEnvelope(cfg, start, states, events, |events|);
    RunStaysInEnvelope(cfg, start, later, after, n);
  }

  /** The envelope, spelled out for one limit: it never falls below its start nor rises above its start and the cap. */
  lemma LimitStaysBetweenStartAndCap(cfg: Config, start: Workloads, states: seq<State>, events: seq<Event>, n: nat,
                                     ref: ControllerRef, name: string, res: ResourceName)
    requires IsRun(cfg, start, states, events) && n < |states|
    requires ref in start && name in start[ref].containers
    requires res in start[ref].containers[name].limits && CapOf(cfg.opts, res) > 0
    ensures ref in states[n].workloads && name in states[n].workloads[ref].containers
    ensures res in states[n].workloads[ref].containers[name].limits
    ensures var v0 := start[ref].containers[name].limits[res];
      v0 <= states[n].workloads[ref].containers[name].limits[res] <= Max(v0, CapOf(cfg.opts, res))
  {
    RunStaysInEnvelope(cfg, start, states, events, n);
    assert WorkloadInEnvelope(cfg.opts, start[ref], states[n].workloads[ref]);
    assert ContainerInEnvelope(cfg.opts, start[ref].containers[name], states[n].workloads[ref].containers[name]);
  }

  // ----- How often each controller is healed -----

  /** The times of the trace's heals for which the breaker of `key` was asked. */
  function TimesAsked(events: seq<Event>, key: string): seq<int> {
    if events == [] then []
    else
      var before, e := TimesAsked(events[..|events| - 1], key), events[|events| - 1];
      if e.Heal? && e.seen == Some(key) then before + [e.now] else before
  }

  /** The times of the trace's heals of the controller with this key. */
  function TimesHealed(events: seq<Event>, key: string): seq<int> {
    if events == [] then []
    else
      var before, e := TimesHealed(events[..|events| - 1], key), events[|events| - 1];
      if e.Heal? && e.api.resolved.Some? && KeyOf(e.api.resolved.value) == key then before + [e.now] else before
  }

  /** The controller the breaker was asked about is the one that was then patched. */
  predicate AskedAsHealed(e: Event) {
    e.Heal? ==> e.api.resolved.Some? && e.seen == Some(KeyOf(e.api.resolved.value))
  }

  lemma {:induction false} AskedTimesAreHealTimes(events: seq<Event>, key: string)
    requires forall e | e in events :: AskedAsHealed(e)
    ensures TimesAsked(events, key) == TimesHealed(events, key)
  {
    if events != [] {
      assert AskedAsHealed(events[|events| - 1]);
      AskedTimesAreHealTimes(events[..|events| - 1], key);
    }
  }

  lemma TimesAskedSnoc(events: seq<Event>, e: Event, key: string)
    ensures TimesAsked(events + [e], key)
         == TimesAsked(events, key) + (if e.Heal? && e.seen == Some(key) then [e.now] else [])
  {
    assert (events + [e])[..|events|] == events;
  }

  function HealsIn(events: seq<Event>): nat {
    if events == [] then 0 else HealsIn(events[..|events| - 1]) + (if events[|events| - 1].Heal? then 1 else 0)
  }

  lemma HealsInSnoc(events: seq<Event>, e: Event)
    ensures HealsIn(events + [e]) == HealsIn(events) + (if e.Heal? then 1 else 0)
  {
    assert (events + [e])[..|events|] == events;
  }
}
