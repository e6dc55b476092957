/**
 * What every step of a trace does to the workloads and the pending records, value by
 * value, and what a heal and its failed check come to.
 */
module TraceTheorems {
  import opened Prelude
  import opened HealTypes
  import opened Cluster
  import opened HealRecord
  import opened Executor
  import opened ValidatorTheorems
  import opened Lifecycle
  import Validator

  // ----- A check of a pending record -----

  predicate KeptUnless(pending: map<string, Record>, key: string, deleted: bool, pending': map<string, Record>) {
    && pending'.Keys == (if deleted then pending.Keys - {key} else pending.Keys)
    && forall k | k in pending' :: pending'[k] == pending[k]
  }

  /**
   * A due record whose workload still fails is put back, if there is something to put
   * back and the cluster takes it, and may then go. One whose workload recovered may
   * just go. In every other case nothing changes.
   */
  ghost predicate ChecksRecord(s: State, e: Event, s': State)
    requires e.Verify?
  {
    if e.key !in s.pending || e.now < s.pending[e.key].verifyAfter then s' == s
    else if !e.stillFailing then
      s'.workloads == s.workloads && KeptUnless(s.pending, e.key, e.deleted, s'.pending)
    else if e.accepted && CanPutBack(s.workloads, s.pending[e.key]) then
      && PutBackOn(s.workloads, s.pending[e.key], s'.workloads)
      && KeptUnless(s.pending, e.key, e.deleted, s'.pending)
    else s' == s
  }

  lemma VerifyChecks(s: State, e: Event)
    requires e.Verify?
    ensures ChecksRecord(s, e, AfterVerify(s, e))
  {
    hide CanPutBack, PutBackOn, AfterRollback;
    if e.key in s.pending {
      var rec := s.pending[e.key];
      UndoneIff(s.workloads, rec, e.accepted);
      PutBackAsGiven(s.workloads, rec, e.accepted, AfterRollback(s.workloads, rec, true, e.accepted));
    }
  }

  lemma UndoneIff(ws: Workloads, rec: Record, accepted: bool)
    ensures CanPutBack(ws, rec) && accepted
      <==> UndoOf(rec).Some? && Patched(ws, rec.controller, UndoOf(rec).value, false, accepted).1
  {
    hide HasUndo, StillHas, UndoOf, PutBack, Apply;
    if rec.controller in ws {
      UndoIsExact(rec, ws[rec.controller]);
    } else {
      assert !CanPutBack(ws, rec);
    }
  }

  /** Conversely that is the only thing a check can come to. */
  lemma PassedCheckIsStep(s: State, e: Event, s': State)
    requires e.Verify? && !e.stillFailing && e.key in s.pending && e.now >= s.pending[e.key].verifyAfter
    requires s'.workloads == s.workloads && s'.pending == if e.deleted then s.pending - {e.key} else s.pending
    ensures s' == AfterVerify(s, e)
  {
    hide AfterRollback;
  }

  lemma FailedCheckIsStep(s: State, e: Event, s': State)
    requires e.Verify? && e.stillFailing && e.key in s.pending && e.now >= s.pending[e.key].verifyAfter
    requires if CanPutBack(s.workloads, s.pending[e.key]) && e.accepted then
               PutBackOn(s.workloads, s.pending[e.key], s'.workloads)
               && s'.pending == if e.deleted then s.pending - {e.key} else s.pending
             else s' == s
    ensures s' == AfterVerify(s, e)
  {
    hide CanPutBack, PutBackOn, AfterRollback;
    var rec := s.pending[e.key];
    UndoneIff(s.workloads, rec, e.accepted);
    PutBackAsGiven(s.workloads, rec, e.accepted, s'.workloads);
  }

  lemma CheckEffect(cfg: Config, states: seq<State>, events: seq<Event>, i: nat)
    requires IsTrace(cfg, states, events) && i < |events| && events[i].Verify?
    ensures ChecksRecord(states[i], events[i], states[i + 1])
  {
    hide ChecksRecord, AfterVerify;
    assert StepAt(cfg, states, events, i);
    VerifyChecks(states[i], events[i]);
  }

  // ----- A heal -----

  /** The record of this heal is pending, and every other record is as it was. */
  ghost predicate RecordsHeal(cfg: Config, s: State, e: Event, p: Plan, ref: ControllerRef, s': State)
    requires e.Heal?
  {
    && s'.pending.Keys == s.pending.Keys + {KeyOf(ref)}
    && (forall k | k in s.pending && k != KeyOf(ref) :: s'.pending[k] == s.pending[k])
    && IsRecordOf(s'.pending[KeyOf(ref)], p, ref, e.b, e.kind, e.a, e.confidence, e.now + cfg.verifyAfter)
  }

  /** The plan is carried out if the cluster takes it, and its record saved where it has one; or nothing changes. */
  ghost predicate HealsBy(cfg: Config, s: State, e: Event, p: Plan, s': State)
    requires e.Heal?
  {
    if !Executes(s.workloads, map[], p, e.api, cfg.allowGitOps) || p.kind.CreatePVC? then s' == s
    else
      var ref := e.api.resolved.value;
      && CarriedOutOn(s.workloads, p, ref, s'.workloads)
      && if p.kind.RestartWorkload? || !e.saved then s'.pending == s.pending
         else RecordsHeal(cfg, s, e, p, ref, s')
  }

  lemma LandsIffExecutes(ws: Workloads, p: Plan, api: Replies, allowGitOps: bool)
    requires p.kind.CreatePVC? <==> ChangeOf(p).None?
    ensures Lands(ws, p, api, allowGitOps) <==> Executes(ws, map[], p, api, allowGitOps) && !p.kind.CreatePVC?
  {
    hide Apply;
    if api.resolved.Some? && api.resolved.value in ws && ChangeOf(p).Some? {
      ChangeIsExact(p, api.resolved.value, ws[api.resolved.value]);
    }
  }

  lemma LandedIsCarriedOut(ws: Workloads, p: Plan, ref: ControllerRef)
    requires ref in ws && ChangeOf(p).Some? && Applicable(ref, ws[ref], ChangeOf(p).value)
    ensures CarriedOutOn(ws, p, ref, ws[ref := Apply(ws[ref], ChangeOf(p).value)])
  {
    hide CarriedOut, Does, Apply;
    ChangeIsExact(p, ref, ws[ref]);
    ApplyDoes(ref, ws[ref], ChangeOf(p).value, Apply(ws[ref], ChangeOf(p).value));
  }

  lemma SavedIsRecorded(cfg: Config, s: State, e: Event, p: Plan, ref: ControllerRef, s': State)
    requires e.Heal?
    requires s'.pending ==
      s.pending[KeyOf(ref) := SavedRecord(p, ref, e.b, Validator.FindContainer(e.b.containers, p.container), e.now,
                                          cfg.verifyAfter, e.kind, e.a, e.confidence)]
    ensures RecordsHeal(cfg, s, e, p, ref, s')
  {
    hide IsRecordOf, SavedRecord;
    RecordIsExact(s'.pending[KeyOf(ref)], p, ref, e.b, e.now, cfg.verifyAfter, e.kind, e.a, e.confidence);
  }

  lemma AppliedHealsBy(cfg: Config, s: State, e: Event, p: Plan)
    requires e.Heal? && Accepts(e.b, e.confidence, e.a, cfg.opts, p)
    ensures HealsBy(cfg, s, e, p, AfterHeal(cfg, s, p, e))
  {
    hide Accepts, SavedRecord, CarriedOutOn, Apply, Validator.FindContainer, Executes, AfterHeal, Applicable,
      RecordsHeal;
    AcceptedByItsKind(e.b, e.confidence, e.a, cfg.opts, p);
    HealEffect(cfg, s, p, e);
    LandsIffExecutes(s.workloads, p, e.api, cfg.allowGitOps);
    if Lands(s.workloads, p, e.api, cfg.allowGitOps) {
      var ref := e.api.resolved.value;
      LandedIsCarriedOut(s.workloads, p, ref);
      if Recorded(p.kind) && e.saved {
        SavedIsRecorded(cfg, s, e, p, ref, AfterHeal(cfg, s, p, e));
      }
    }
  }

  /** Conversely an accepted plan carried out, and its record saved where it has one, is a step. */
  lemma CarriedOutIsStep(cfg: Config, s: State, p: Plan, e: Event, claims: map<(string, string), ClaimSpec>, s': State)
    requires e.Heal? && Accepts(e.b, e.confidence, e.a, cfg.opts, p)
    requires Executes(s.workloads, claims, p, e.api, cfg.allowGitOps)
    requires if p.kind.CreatePVC? then s'.workloads == s.workloads
             else CarriedOutOn(s.workloads, p, e.api.resolved.value, s'.workloads)
    requires s'.pending ==
      if Recorded(p.kind) && e.saved then
        s.pending[KeyOf(e.api.resolved.value) :=
          SavedRecord(p, e.api.resolved.value, e.b, Validator.FindContainer(e.b.containers, p.container), e.now,
                      cfg.verifyAfter, e.kind, e.a, e.confidence)]
      else s.pending
    ensures s' == Next(cfg, s, e)
  {
    hide SavedRecord, CarriedOutOn, Apply, Validator.FindContainer, Reaches, Validator.Validate;
    ExecutedAsGiven(s.workloads, claims, p, e.api, cfg.allowGitOps, s'.workloads);
    AcceptedByItsKind(e.b, e.confidence, e.a, cfg.opts, p);
    if Recorded(p.kind) {
      ReachedLands(s.workloads, claims, p, e.api, cfg.allowGitOps);
    }
  }

  lemma ReachedLands(ws: Workloads, claims: map<(string, string), ClaimSpec>, p: Plan, api: Replies, allowGitOps: bool)
    requires Executes(ws, claims, p, api, allowGitOps) && Recorded(p.kind)
    ensures Lands(ws, p, api, allowGitOps)
  {
    hide Apply;
    ChangeIsExact(p, api.resolved.value, ws[api.resolved.value]);
  }

  /** An accepted proposal heals by its plan, and a refused one changes nothing. */
  lemma HealStep(cfg: Config, states: seq<State>, events: seq<Event>, i: nat, p: Plan)
    requires IsTrace(cfg, states, events) && i < |events| && events[i].Heal?
    ensures var e := events[i];
      && (Accepts(e.b, e.confidence, e.a, cfg.opts, p) ==> HealsBy(cfg, states[i], e, p, states[i + 1]))
      && ((forall q :: !Accepts(e.b, e.confidence, e.a, cfg.opts, q)) ==> states[i + 1] == states[i])
  {
    hide HealsBy, AfterHeal, Validator.Validate;
    var e := events[i];
    assert StepAt(cfg, states, events, i);
    if Accepts(e.b, e.confidence, e.a, cfg.opts, p) {
      AppliedHealsBy(cfg, states[i], e, p);
    }
    var v := Validator.Validate(e.b, e.confidence, e.a, cfg.opts);
    assert v.Ok? ==> Accepts(e.b, e.confidence, e.a, cfg.opts, v.value);
  }

  // ----- Over a whole trace -----

  /** A record goes only when its check finds the workload well, or has put the recorded values back. */
  lemma RecordGoesOnlyWhenDone(cfg: Config, states: seq<State>, events: seq<Event>, i: nat, key: string)
    requires IsTrace(cfg, states, events) && i < |events|
    requires key in states[i].pending && key !in states[i + 1].pending
    ensures var e, rec := events[i], states[i].pending[key];
      && e.Verify? && e.key == key && e.deleted && rec.verifyAfter <= e.now
      && (e.stillFailing ==>
            CanPutBack(states[i].workloads, rec) && PutBackOn(states[i].workloads, rec, states[i + 1].workloads))
  {
    hide Accepts, CanPutBack, PutBackOn, Executes, CarriedOutOn, IsRecordOf;
    if events[i].Verify? {
      CheckEffect(cfg, states, events, i);
    } else {
      var e := events[i];
      if p :| Accepts(e.b, e.confidence, e.a, cfg.opts, p) {
        HealStep(cfg, states, events, i, p);
      } else {
        HealStep(cfg, states, events, i, EmptyPlan(NoAction, e.b));
      }
    }
  }

  /** Every record is filed under its own controller's key. */
  predicate WellFiled(s: State) {
    forall k | k in s.pending :: KeyOf(s.pending[k].controller) == k
  }

  /** The event is neither a heal of this controller nor a check of its record. */
  predicate Elsewhere(e: Event, key: string) {
    match e
    case Heal(_, _, _, _, _, _, api, _) => api.resolved.Some? ==> KeyOf(api.resolved.value) != key
    case Verify(k, _, _, _, _) => k != key
  }

  predicate SameFor(s: State, s': State, ref: ControllerRef) {
    && ref in s.workloads && ref in s'.workloads && s'.workloads[ref] == s.workloads[ref]
    && (KeyOf(ref) in s.pending <==> KeyOf(ref) in s'.pending)
    && (KeyOf(ref) in s.pending ==> s'.pending[KeyOf(ref)] == s.pending[KeyOf(ref)])
  }

  /** Whatever the event is about, the others' workloads and records stay, and all are filed well. */
  ghost predicate KeepsOthers(s: State, e: Event, s': State) {
    && WellFiled(s')
    && forall ref | ref in s.workloads && Elsewhere(e, KeyOf(ref)) :: SameFor(s, s', ref)
  }

  lemma CheckKeepsOthers(s: State, e: Event, s': State)
    requires WellFiled(s) && e.Verify? && ChecksRecord(s, e, s')
    ensures KeepsOthers(s, e, s')
  {
    hide PutBack, HasUndo, StillHas, KeyOf;
  }

  lemma HealKeepsOthers(cfg: Config, s: State, e: Event, p: Plan, s': State)
    requires WellFiled(s) && e.Heal? && HealsBy(cfg, s, e, p, s')
    ensures KeepsOthers(s, e, s')
  {
    hide CarriedOut, Reaches, ShownAs, Remembers, KeyOf;
  }

  lemma StepKeepsFiled(cfg: Config, states: seq<State>, events: seq<Event>, i: nat)
    requires IsTrace(cfg, states, events) && i < |events| && WellFiled(states[i])
    ensures KeepsOthers(states[i], events[i], states[i + 1])
  {
    hide Accepts, ChecksRecord, HealsBy, KeyOf;
    var e := events[i];
    if e.Verify? {
      CheckEffect(cfg, states, events, i);
      CheckKeepsOthers(states[i], e, states[i + 1]);
    } else if p :| Accepts(e.b, e.confidence, e.a, cfg.opts, p) {
      HealStep(cfg, states, events, i, p);
      HealKeepsOthers(cfg, states[i], e, p, states[i + 1]);
    } else {
      HealStep(cfg, states, events, i, EmptyPlan(NoAction, e.b));
    }
  }

  lemma {:induction false} KeptElsewhere(cfg: Config, states: seq<State>, events: seq<Event>, i: nat, j: nat,
                                         ref: ControllerRef)
    requires IsTrace(cfg, states, events) && i <= j <= |events| && WellFiled(states[i])
    requires ref in states[i].workloads && forall k | i <= k < j :: Elsewhere(events[k], KeyOf(ref))
    ensures WellFiled(states[j]) && SameFor(states[i], states[j], ref)
  {
    hide IsTrace, Elsewhere, KeyOf, WellFiled;
    if i < j {
      KeptElsewhere(cfg, states, events, i, j - 1, ref);
      StepKeepsFiled(cfg, states, events, j - 1);
    }
  }

  lemma {:induction false} StaysWellFiled(cfg: Config, states: seq<State>, events: seq<Event>, n: nat)
    requires IsTrace(cfg, states, events) && n <= |events| && WellFiled(states[0])
    ensures WellFiled(states[n])
  {
    hide StepAt, WellFiled;
    if n > 0 {
      StaysWellFiled(cfg, states, events, n - 1);
      StepKeepsFiled(cfg, states, events, n - 1);
      OthersKeptFiled(states[n - 1], events[n - 1], states[n]);
    }
  }

  lemma OthersKeptFiled(s: State, e: Event, s': State)
    requires KeepsOthers(s, e, s')
    ensures WellFiled(s')
  {
  }

  /** A heal carried out and recorded on evidence of what its controller had. */
  ghost predicate HealedFrom(cfg: Config, s: State, e: Event, p: Plan, ref: ControllerRef) {
    && e.Heal? && e.saved && Accepts(e.b, e.confidence, e.a, cfg.opts, p)
    && Executes(s.workloads, map[], p, e.api, cfg.allowGitOps) && e.api.resolved == Some(ref)
    && !p.kind.RestartWorkload? && !p.kind.CreatePVC?
    && FreshEvidence(e.b, s.workloads[ref], p.container)
  }

  /** A check of this controller's record that finds it failing, after the grace, and whose undo the cluster takes. */
  predicate FailedCheck(e: Event, key: string, due: int) {
    e.Verify? && e.key == key && e.now >= due && e.stillFailing && e.accepted
  }

  lemma HealedHasController(cfg: Config, s: State, e: Event, p: Plan, ref: ControllerRef)
    requires HealedFrom(cfg, s, e, p, ref)
    ensures ref in s.workloads
  {
    hide Accepts, FreshEvidence;
  }

  lemma HealLeavesItsRecord(cfg: Config, states: seq<State>, events: seq<Event>, i: nat, p: Plan, ref: ControllerRef)
    requires IsTrace(cfg, states, events) && i < |events| && HealedFrom(cfg, states[i], events[i], p, ref)
    ensures CarriedOutOn(states[i].workloads, p, ref, states[i + 1].workloads)
    ensures Reaches(states[i].workloads, map[], p, ref)
    ensures ref in states[i + 1].workloads && KeyOf(ref) in states[i + 1].pending
    ensures states[i + 1].pending[KeyOf(ref)].verifyAfter == events[i].now + cfg.verifyAfter
    ensures var e := events[i];
      IsRecordOf(states[i + 1].pending[KeyOf(ref)], p, ref, e.b, e.kind, e.a, e.confidence, e.now + cfg.verifyAfter)
  {
    hide Accepts, CarriedOut, FreshEvidence, ShownAs, Remembers, KeyOf, Reaches;
    HealStep(cfg, states, events, i, p);
  }

  /** Putting back is the inverse of the heal whatever has happened to other controllers meanwhile. */
  lemma PutBackLater(cfg: Config, ws: Workloads, healed: Workloads, e: Event, p: Plan, ref: ControllerRef, rec: Record,
                     later: Workloads, after: Workloads)
    requires e.Heal? && Accepts(e.b, e.confidence, e.a, cfg.opts, p) && !p.kind.RestartWorkload? && !p.kind.CreatePVC?
    requires CarriedOutOn(ws, p, ref, healed) && Reaches(ws, map[], p, ref) && FreshEvidence(e.b, ws[ref], p.container)
    requires IsRecordOf(rec, p, ref, e.b, e.kind, e.a, e.confidence, e.now + cfg.verifyAfter)
    requires ref in later && later[ref] == healed[ref]
    ensures HasUndo(rec) <==> !NothingHadAValue(ws[ref], p)
    ensures HasUndo(rec) ==> CanPutBack(later, rec)
    ensures HasUndo(rec) && PutBackOn(later, rec, after) ==>
      OnlyWorkload(later, ref, after) && Restored(ws[ref], p, after[ref])
  {
    hide Accepts, CarriedOut, PutBack, HasUndo, StillHas, FreshEvidence, Restored, NothingHadAValue, Remembers, Reaches,
      ShownAs;
    RollbackInvertsHeal(ws, healed, p, ref, e.b, e.confidence, e.a, cfg.opts, rec, e.kind, e.now + cfg.verifyAfter);
    if HasUndo(rec) && PutBackOn(later, rec, after) {
      assert PutBackOn(healed, rec, healed[ref := after[ref]]);
    }
  }

  /**
   * The controller is what it was before the heal, but for resource keys the heal
   * introduced; nothing else moved, and the record may be gone. Where no changed key
   * had a value nothing happened.
   */
  ghost predicate Undoes(w: Workload, p: Plan, s: State, ref: ControllerRef, deleted: bool, s': State) {
    if NothingHadAValue(w, p) then s' == s
    else
      && OnlyWorkload(s.workloads, ref, s'.workloads) && Restored(w, p, s'.workloads[ref])
      && KeptUnless(s.pending, KeyOf(ref), deleted, s'.pending)
  }

  lemma FailedCheckUndoes(cfg: Config, s: State, healed: State, e: Event, p: Plan, ref: ControllerRef, later: State,
                          check: Event, after: State)
    requires HealedFrom(cfg, s, e, p, ref)
    requires CarriedOutOn(s.workloads, p, ref, healed.workloads) && Reaches(s.workloads, map[], p, ref)
    requires KeyOf(ref) in healed.pending && healed.pending[KeyOf(ref)].verifyAfter == e.now + cfg.verifyAfter
    requires IsRecordOf(healed.pending[KeyOf(ref)], p, ref, e.b, e.kind, e.a, e.confidence, e.now + cfg.verifyAfter)
    requires SameFor(healed, later, ref)
    requires FailedCheck(check, KeyOf(ref), e.now + cfg.verifyAfter) && ChecksRecord(later, check, after)
    ensures Undoes(s.workloads[ref], p, later, ref, check.deleted, after)
  {
    hide Accepts, CarriedOutOn, PutBackOn, HasUndo, StillHas, FreshEvidence, Restored, NothingHadAValue,
      OnlyWorkload, IsRecordOf, KeyOf, Reaches, KeptUnless, Executes;
    PutBackLater(cfg, s.workloads, healed.workloads, e, p, ref, healed.pending[KeyOf(ref)], later.workloads,
                 after.workloads);
  }

  /**
   * A heal, then anything that happens elsewhere, then the heal's failed check: the
   * check undoes the heal.
   */
  lemma FailedHealIsUndone(cfg: Config, states: seq<State>, events: seq<Event>, i: nat, j: nat, p: Plan,
                           ref: ControllerRef)
    requires IsTrace(cfg, states, events) && i < j < |events| && WellFiled(states[i])
    requires HealedFrom(cfg, states[i], events[i], p, ref)
    requires forall k | i < k < j :: Elsewhere(events[k], KeyOf(ref))
    requires FailedCheck(events[j], KeyOf(ref), events[i].now + cfg.verifyAfter)
    ensures Undoes(states[i].workloads[ref], p, states[j], ref, events[j].deleted, states[j + 1])
  {
    hide HealedFrom, CarriedOutOn, Undoes, IsRecordOf, Elsewhere, KeyOf, Reaches, WellFiled, ChecksRecord, SameFor,
      StepAt;
    HealLeavesItsRecord(cfg, states, events, i, p, ref);
    StepKeepsFiled(cfg, states, events, i);
    KeptElsewhere(cfg, states, events, i + 1, j, ref);
    CheckEffect(cfg, states, events, j);
    FailedCheckUndoes(cfg, states[i], states[i + 1], events[i], p, ref, states[j], events[j], states[j + 1]);
  }
}
