/**
 * The agent's sweep: problems become incidents, incidents are diagnosed and healed,
 * heals are verified and rolled back. What the cluster, the model and the API server
 * answer are parameters; one clock reading serves each step.
 */
module Agent {
  import opened Prelude
  import opened HealTypes
  import opened Cluster
  import opened HealRecord
  import opened SweepState
  import Detect
  import Validator
  import ValidateMethods
  import Executor
  import Breaker
  import Capacity
  import Playbook
  import PlaybookTheorems
  import Health
  import HealStore
  import Incident
  import Lifecycle
  import TraceTheorems
  import Pacing
  import SharedSnapshot

  class Agent {
    const cfg: Lifecycle.Config
    const cooldown: int
    /** Heals allowed in one sweep; unlimited when not positive. */
    const maxHeals: int
    /** New incidents handled in one sweep; unlimited when not positive. */
    const maxAlerts: int
    const client: Client
    const incidents: Incident.Store
    const healer: Executor.Executor
    const breaker: Breaker.Breaker
    const playbook: Playbook.Book<Blob>
    const pending: HealStore.ConfigMapStore<Record>
    /** Which of these collaborators are configured. */
    const on: Enabled
    var healSeen: map<Target, int>
    var used: nat

    /** The heals applied in each open incident's lifetime. */
    ghost var applied: map<string, nat>
    /** The workloads and the pending records when the agent started. */
    ghost const origin: Lifecycle.State
    /** Everything done to them since, as a trace of the lifecycle. */
    ghost var states: seq<Lifecycle.State>
    ghost var events: seq<Lifecycle.Event>
    /** What the playbook held when the agent started, and everything done to it since. */
    ghost var diary: PlaybookTheorems.Diary<Blob>
    /** Where the current sweep began, and whom its problems blame. */
    ghost var mark: Pacing.Mark
    ghost var clock: int

    /** The pending records, by controller key. */
    ghost function Records(): map<string, Record>
      reads pending
    {
      HealStore.ToMap(pending.keyOf, pending.blob)
    }

    ghost function Current(): Lifecycle.State
      reads client, pending
    {
      Lifecycle.State(client.workloads, Records())
    }

    /** How the collaborators are put together; heals are verified only where they are applied for real. */
    ghost predicate Configured() {
      && healer.client == client && healer.allowGitOps == cfg.allowGitOps
      && (on.verifying ==> on.healing && healer.apply)
      && incidents.resolveAfter >= 0
      && forall r: Record :: pending.keyOf(r) == r.ControllerKey()
    }

    ghost predicate Wired()
      reads pending, breaker
    {
      breaker.Valid() && HealStore.OnePerKey(pending.keyOf, pending.blob)
    }

    ghost predicate Traced()
      reads `states, `events, `mark, `used, client, pending
    {
      && Lifecycle.IsTrace(cfg, states, events) && states[0] == origin && states[|events|] == Current()
      && TraceTheorems.WellFiled(origin)
      && Pacing.InSweep(mark, states, events, used, maxHeals)
    }

    /** The breaker has let through exactly the heals it was asked about. */
    ghost predicate InPace()
      reads `events, `clock, breaker
    {
      on.breaker ==> Pacing.Paced(breaker.opts, breaker.log, events, clock)
    }

    /** No target has been healed twice within the cooldown. */
    ghost predicate Cool()
      reads `events, `healSeen, `clock
    {
      Pacing.Cooled(cfg.opts, cooldown, events, healSeen, clock)
    }

    ghost predicate Steady()
      reads `states, `events, `mark, `used, `healSeen, `clock, client, pending, breaker
    {
      Wired() && Traced() && InPace() && Cool()
    }

    /** No quarantined pair has a replayable fix, and what the playbook holds is what its diary comes to. */
    ghost predicate Guarded()
      reads `clock, `diary, playbook
    {
      && playbook.Valid() && PlaybookTheorems.Safe(playbook.Value(), clock)
      && PlaybookTheorems.Kept(playbook.opts, diary, playbook.Value(), clock)
    }

    ghost predicate Sound()
      reads `states, `events, `mark, `used, `healSeen, `clock, `diary, client, pending, breaker, playbook, incidents
    {
      Steady() && Guarded() && incidents.Valid()
    }

    ghost predicate Counted()
      reads `applied, incidents, incidents.Objects()
    {
      CountsMatch(applied, incidents.Now())
    }

    /**
     * Incidents, playbook and pending records may have been restored from an earlier
     * process; the breaker starts with no history.
     */
    constructor (cfg: Lifecycle.Config, cooldown: int, maxHeals: int, maxAlerts: int, on: Enabled,
                 client: Client, incidents: Incident.Store,
                 healer: Executor.Executor, breaker: Breaker.Breaker, playbook: Playbook.Book<Blob>,
                 pending: HealStore.ConfigMapStore<Record>, ghost start: int)
      requires incidents.Valid() && incidents.resolveAfter >= 0
      requires healer.client == client && healer.allowGitOps == cfg.allowGitOps
      requires breaker.Valid() && breaker.log == map[]
      requires on.verifying ==> on.healing && healer.apply
      requires forall r: Record :: pending.keyOf(r) == r.ControllerKey()
      requires HealStore.OnePerKey(pending.keyOf, pending.blob)
      requires playbook.Valid() && PlaybookTheorems.Safe(playbook.Value(), start)
      ensures Configured() && Sound() && Counted() && events == [] && clock == start
      ensures origin.workloads == client.workloads && diary.ops == []
    {
      this.cfg, this.cooldown, this.maxHeals, this.maxAlerts, this.on := cfg, cooldown, maxHeals, maxAlerts, on;
      this.client, this.incidents := client, incidents;
      this.healer, this.breaker, this.playbook, this.pending := healer, breaker, playbook, pending;
      healSeen, used, events, clock := map[], 0, [], start;
      applied := StartCounts(incidents.Now());
      origin := Lifecycle.State(client.workloads, HealStore.ToMap(pending.keyOf, pending.blob));
      states := [origin];
      mark := Pacing.Mark([origin], [], iset{});
      diary := PlaybookTheorems.Diary([playbook.Value()], [], []);
      StartCountsMatch(incidents.Now());
      HealStore.ToMapFiles(pending.keyOf, pending.blob);
      PlaybookTheorems.NewDiary(playbook.opts, playbook.Value(), start);
    }

    // ----- Attempting a heal -----

    method TakeBudget() returns (ok: bool)
      modifies this`used
      ensures ok <==> maxHeals <= 0 || old(used) < maxHeals
      ensures used == if maxHeals > 0 && ok then old(used) + 1 else old(used)
    {
      if maxHeals <= 0 {
        return true;
      }
      if used >= maxHeals {
        return false;
      }
      used := used + 1;
      ok := true;
    }

    /** Whether the target is out of its cooldown; asking starts a new one when it is. */
    method ShouldHeal(t: Target, now: int) returns (ok: bool)
      modifies this`healSeen
      ensures ok <==> Pacing.OutOfCooldown(old(healSeen), t, cooldown, now)
      ensures healSeen == if ok then old(healSeen)[t := now] else old(healSeen)
    {
      if t in healSeen && now - healSeen[t] < cooldown {
        return false;
      }
      healSeen := healSeen[t := now];
      ok := true;
    }

    /** The breaker is asked only where it is configured, and only about the pod's own workload. */
    function AskedAbout(seen: Option<string>): Option<string> {
      if on.breaker then seen else None
    }

    ghost predicate BreakerOpen(key: string, now: int)
      reads breaker
    {
      Breaker.OpenAt(breaker.StateOf(key), now)
    }

    /** With so much of the budget used and these cooldowns running, every gate stands open. */
    ghost predicate MayHeal(used: nat, seen: Pacing.Seen, suspended: bool, b: Bundle, a: Action, confidence: string,
                            key: Option<string>, now: int)
      reads breaker
    {
      var verdict := Validator.Validate(b, confidence, a, cfg.opts);
      && !suspended && (maxHeals <= 0 || used < maxHeals)
      && verdict.Ok?
      && (on.breaker && key.Some? ==> !BreakerOpen(key.value, now))
      && Pacing.OutOfCooldown(seen, TargetOf(verdict.value), cooldown, now)
    }

    /** The gates stand open, and the cluster takes the change. */
    ghost predicate HealsWith(used: nat, seen: Pacing.Seen, suspended: bool, b: Bundle, a: Action, confidence: string,
                              ans: HealAnswers, now: int)
      reads breaker, client
    {
      && on.healing && healer.apply
      && MayHeal(used, seen, suspended, b, a, confidence, ans.seen, now)
      && Executor.Executes(client.workloads, client.claims, Validator.Validate(b, confidence, a, cfg.opts).value,
                           ans.api, cfg.allowGitOps)
    }

    ghost predicate Heals(suspended: bool, b: Bundle, a: Action, confidence: string, ans: HealAnswers, now: int)
      reads `used, `healSeen, breaker, client
    {
      HealsWith(used, healSeen, suspended, b, a, confidence, ans, now)
    }

    /** An attempt in a sweep not suspended takes one heal of the budget, whatever comes of it. */
    function UsedAfter(used: nat, suspended: bool): nat {
      if on.healing && maxHeals > 0 && !suspended && used < maxHeals then used + 1 else used
    }

    /** An attempt past every gate starts its target's cooldown, whatever comes of it. */
    ghost function SeenAfter(used: nat, seen: Pacing.Seen, suspended: bool, b: Bundle, a: Action, confidence: string,
                             key: Option<string>, now: int): Pacing.Seen
      reads breaker
    {
      if on.healing && MayHeal(used, seen, suspended, b, a, confidence, key, now)
      then seen[TargetOf(Validator.Validate(b, confidence, a, cfg.opts).value) := now]
      else seen
    }

    /** What an attempt takes of the budget and starts of the cooldowns. */
    twostate predicate Spent(suspended: bool, b: Bundle, a: Action, confidence: string, key: Option<string>, now: int)
      reads `used, `healSeen
    {
      && used == UsedAfter(old(used), suspended)
      && healSeen == old(SeenAfter(used, healSeen, suspended, b, a, confidence, key, now))
    }

    /** Nothing later attempts depend on has changed, but for the budget and the cooldowns. */
    twostate predicate LeftAsBefore(now: int)
      reads client, breaker
    {
      && client.workloads == old(client.workloads) && client.claims == old(client.claims)
      && forall key :: BreakerOpen(key, now) == old(BreakerOpen(key, now))
    }

    /** The breaker's permission, where there is a breaker and a controller to ask about. */
    method AskBreaker(seen: Option<string>, now: int) returns (ok: bool)
      requires breaker.Valid()
      modifies breaker`st, breaker`log
      ensures breaker.Valid()
      ensures ok <==> !(on.breaker && seen.Some? && Breaker.OpenAt(old(breaker.StateOf(seen.value)), now))
      ensures Pacing.AskedOf(breaker.opts, old(breaker.log), breaker.log, AskedAbout(seen), now, ok)
    {
      if !on.breaker || seen.None? {
        Pacing.NothingAsked(breaker.opts, breaker.log, None, now);
        return true;
      }
      assert Breaker.FollowsAt(breaker.opts, breaker.st, breaker.log, seen.value);
      ghost var was := breaker.log;
      ok := breaker.Allowed(seen.value, now);
      Pacing.AskedOnce(breaker.opts, was, breaker.log, seen.value, now, ok);
    }

    /**
     * The gates an attempt passes before anything is executed, in the code's order: no
     * cluster-wide surge, the sweep's budget, validation, the breaker, the cooldown.
     */
    method Permitted(suspended: bool, b: Bundle, a: Action, confidence: string, seen: Option<string>, now: int)
      returns (plan: Option<Plan>)
      requires breaker.Valid() && on.healing
      modifies this`used, this`healSeen, breaker`st, breaker`log
      ensures breaker.Valid()
      ensures plan.Some? <==> old(MayHeal(used, healSeen, suspended, b, a, confidence, seen, now))
      ensures plan.Some? ==> Validator.Validate(b, confidence, a, cfg.opts) == Ok(plan.value)
      ensures Spent(suspended, b, a, confidence, seen, now)
      ensures Pacing.AskedOf(breaker.opts, old(breaker.log), breaker.log, AskedAbout(seen), now, plan.Some?)
    {
      hide Validator.Validate, Pacing.AskedOf;
      Pacing.NothingAsked(breaker.opts, breaker.log, AskedAbout(seen), now);
      if suspended {
        return None;
      }
      var room := TakeBudget();
      if !room {
        return None;
      }
      var verdict := ValidateMethods.Decide(b, confidence, a, cfg.opts);
      if verdict.Err? {
        return None;
      }
      ghost var was := breaker.log;
      var ok := AskBreaker(seen, now);
      if !ok {
        return None;
      }
      var ready := ShouldHeal(TargetOf(verdict.value), now);
      Pacing.AskedAnyway(breaker.opts, was, breaker.log, AskedAbout(seen), now);
      plan := if ready then Some(verdict.value) else None;
    }

    /** An applied heal is one step of the lifecycle; any other outcome leaves workloads and records alone. */
    ghost predicate Extends(states0: seq<Lifecycle.State>, events0: seq<Lifecycle.Event>, b: Bundle, kind: string,
                            a: Action, confidence: string, ans: HealAnswers, now: int, res: HealResult)
      reads `states, `events
    {
      if !res.Applied() then states == states0 && events == events0
      else
        && Validator.Validate(b, confidence, a, cfg.opts).Ok?
        && |states| == |states0| + 1 && states0 <= states
        && exists saved :: events == events0 + [Lifecycle.Heal(b, confidence, a, kind, now, ans.seen, ans.api, saved)]
    }

    ghost predicate IsAttempt(e: Lifecycle.Event, b: Bundle, a: Action, confidence: string, seen: Option<string>,
                              now: int)
    {
      e.Heal? && e.b == b && e.a == a && e.confidence == confidence && e.seen == seen && e.now == now
    }

    /** The sweep's budget has paid for one heal more than the trace has. */
    ghost predicate HasRoom()
      reads `events, `mark, `used
    {
      maxHeals > 0 ==> Lifecycle.HealsIn(events) < Lifecycle.HealsIn(mark.events) + used
    }

    method MaybeHeal(ghost k: string, suspended: bool, b: Bundle, kind: string, a: Action, confidence: string,
                     ans: HealAnswers, now: int)
      returns (res: HealResult)
      requires Configured() && Steady() && clock == now
      modifies this`used, this`healSeen, this`applied, this`states, this`events
      modifies client`workloads, client`claims, breaker`st, breaker`log, pending`blob
      ensures Steady()
      ensures !on.healing <==> res.NotAttempted?
      ensures applied == CountedHeal(old(applied), k, res)
      ensures Extends(old(states), old(events), b, kind, a, confidence, ans, now, res)
      ensures res.Applied() <==> old(Heals(suspended, b, a, confidence, ans, now))
      ensures Pacing.Obeyed(breaker.opts, old(breaker.log), breaker.log, AskedAbout(ans.seen), now, res.Applied())
      ensures Spent(suspended, b, a, confidence, ans.seen, now)
      ensures !res.Applied() ==> LeftAsBefore(now)
    {
      hide Configured, Validator.Validate, Executor.Executes, Pacing.Paced, Pacing.Cooled, Pacing.AskedOf,
        Pacing.Obeyed, Pacing.OutOfCooldown, TargetOf, Lifecycle.IsTrace, Pacing.InSweep, Lifecycle.HealsIn,
        Breaker.OpenAt, Breaker.Follows;
      ghost var was := breaker.log;
      if !on.healing {
        Pacing.NothingAsked(breaker.opts, was, AskedAbout(ans.seen), now);
        Pacing.AskedThenObeyed(breaker.opts, was, was, was, AskedAbout(ans.seen), now, false, false);
        return NotAttempted;
      }
      Pacing.Spend(mark, states, events, used, maxHeals, suspended);
      var plan := Permitted(suspended, b, a, confidence, ans.seen, now);
      ghost var asked := breaker.log;
      if plan.None? {
        res := Skipped;
      } else {
        res := CarryOut(k, plan.value, b, kind, a, confidence, ans, now);
        if on.breaker && ans.seen.Some? && res.Applied() {
          var tripped := breaker.OnHeal(ans.seen.value, now);
        }
      }
      Pacing.AskedThenObeyed(breaker.opts, was, asked, breaker.log, AskedAbout(ans.seen), now, plan.Some?,
                             res.Applied());
      AfterAttempt(old(events), was, old(breaker.st), old(healSeen), plan, b, a, confidence, ans.seen, now,
                   res.Applied());
    }

    /** Breaker and cooldown keep pace with the attempt that was made. */
    lemma AfterAttempt(events0: seq<Lifecycle.Event>, log0: Pacing.Logs, st0: map<string, Breaker.State>,
                       seen0: Pacing.Seen, plan: Option<Plan>, b: Bundle, a: Action, confidence: string,
                       seen: Option<string>, now: int, healed: bool)
      requires clock == now && breaker.Valid() && Breaker.Follows(breaker.opts, st0, log0)
      requires on.breaker ==> Pacing.Paced(breaker.opts, log0, events0, now)
      requires Pacing.Cooled(cfg.opts, cooldown, events0, seen0, now)
      requires Pacing.Obeyed(breaker.opts, log0, breaker.log, AskedAbout(seen), now, healed)
      requires healed ==> plan.Some?
      requires if healed then exists e :: IsAttempt(e, b, a, confidence, seen, now) && events == events0 + [e]
               else events == events0
      requires plan.Some? ==>
        && Validator.Validate(b, confidence, a, cfg.opts) == Ok(plan.value)
        && Pacing.OutOfCooldown(seen0, TargetOf(plan.value), cooldown, now)
      requires healSeen == if plan.Some? then seen0[TargetOf(plan.value) := now] else seen0
      ensures InPace() && Cool()
      ensures !healed ==> forall key :: BreakerOpen(key, now) == Breaker.OpenAt(Breaker.StateIn(st0, key), now)
    {
      hide Validator.Validate, Pacing.Paced, Pacing.Cooled, Pacing.Obeyed, Breaker.Follows, Breaker.OpenAt;
      if on.breaker {
        Pacing.AttemptKeepsPace(breaker.opts, log0, breaker.log, events0, events, seen, now, healed);
      }
      if healed {
        var e :| IsAttempt(e, b, a, confidence, seen, now) && events == events0 + [e];
        Pacing.HealKeepsCool(cfg.opts, cooldown, events0, seen0, TargetOf(plan.value), e);
      } else {
        if plan.Some? {
          Pacing.PermissionKeepsCool(cfg.opts, cooldown, events0, seen0, TargetOf(plan.value), now);
        }
        forall key
          ensures BreakerOpen(key, now) == Breaker.OpenAt(Breaker.StateIn(st0, key), now)
        {
          Pacing.AskingOpensNothing(breaker.opts, st0, log0, breaker.st, breaker.log, AskedAbout(seen), now, key);
        }
      }
    }

    /** Executes the plan, and persists an applied patch for later verification. */
    method CarryOut(ghost k: string, plan: Plan, b: Bundle, kind: string, a: Action, confidence: string,
                    ans: HealAnswers, now: int)
      returns (res: HealResult)
      requires on.healing && Configured() && Wired() && Traced() && HasRoom()
      requires Validator.Validate(b, confidence, a, cfg.opts) == Ok(plan)
      modifies this`applied, this`states, this`events, client`workloads, client`claims, pending`blob
      ensures Wired() && Traced() && !res.NotAttempted?
      ensures res.Applied() <==>
        healer.apply && Executor.Executes(old(client.workloads), old(client.claims), plan, ans.api, cfg.allowGitOps)
      ensures !res.Applied() ==> client.workloads == old(client.workloads) && client.claims == old(client.claims)
      ensures applied == CountedHeal(old(applied), k, res)
      ensures Extends(old(states), old(events), b, kind, a, confidence, ans, now, res)
    {
      hide Validator.Validate, Lifecycle.IsTrace, Pacing.InSweep, Executor.CarriedOutOn, Executor.Executes, SavedRecord,
        Lifecycle.Next, TraceTheorems.WellFiled;
      ghost var before := Current();
      var outcome := healer.Execute(plan, ans.api);
      if outcome.Err? {
        assert Current() == before;
        return if outcome.error.GitOpsManaged? then Skipped else Failed;
      }
      if !outcome.value.applied {
        assert Current() == before;
        return Done(false);
      }
      var saved := false;
      if Executor.Recorded(plan.kind) && on.verifying {
        saved := Remember(plan, outcome.value.ref, b, kind, a, confidence, ans, now);
      }
      ghost var e := Lifecycle.Heal(b, confidence, a, kind, now, ans.seen, ans.api, saved);
      TraceTheorems.CarriedOutIsStep(cfg, before, plan, e, old(client.claims), Current());
      Extend(before, e);
      res := Done(true);
      applied := CountedHeal(applied, k, res);
    }

    /** Persists the applied plan's record for its later verification. */
    method Remember(p: Plan, ctrl: ControllerRef, b: Bundle, kind: string, a: Action, confidence: string,
                    ans: HealAnswers, now: int)
      returns (saved: bool)
      requires Configured() && Wired()
      modifies pending`blob
      ensures Wired()
      ensures
        var rec := SavedRecord(p, ctrl, b, Validator.FindContainer(b.containers, p.container), now, cfg.verifyAfter,
                               kind, a, confidence);
        Current().pending == if saved then old(Current()).pending[KeyOf(ctrl) := rec] else old(Current()).pending
    {
      var rec := MakeRecord(p, ctrl, b, Validator.FindContainer(b.containers, p.container), now, cfg.verifyAfter,
                            kind, a, confidence);
      assert rec.controller == ctrl;
      HealStore.UpsertedSetsKey(pending.keyOf, pending.blob, rec);
      saved := pending.Save(rec, ans.readable, ans.writable);
    }

    /** One more step of the lifecycle has been taken. */
    ghost method Extend(before: Lifecycle.State, e: Lifecycle.Event)
      requires Lifecycle.IsTrace(cfg, states, events) && states[0] == origin && states[|events|] == before
      requires Pacing.InSweep(mark, states, events, used, maxHeals) && Pacing.FairAt(mark, e) && (e.Heal? ==> HasRoom())
      requires TraceTheorems.WellFiled(origin)
      requires Current() == Lifecycle.Next(cfg, before, e)
      modifies this`states, this`events
      ensures Traced() && states == old(states) + [Current()] && events == old(events) + [e]
    {
      hide Lifecycle.Next;
      Lifecycle.TraceSnoc(cfg, states, events, e);
      Pacing.OneMoreEvent(mark, states, events, used, maxHeals, Current(), e);
      states, events := states + [Current()], events + [e];
    }

    // ----- Attempts on behalf of an incident -----

    /** Notes an attempt's proposal on its incident, and that the incident is healed if it worked. */
    method RememberHeal(k: string, a: Action, confidence: string, res: HealResult, ghost counts: map<string, nat>)
      requires Steady() && incidents.Valid() && k in incidents.open && !incidents.open[k].healed
      requires CountsMatch(counts, incidents.Now()) && applied == CountedHeal(counts, k, res)
      modifies incidents`dirty, incidents.Objects()
      ensures Steady() && incidents.Valid() && Counted()
      ensures incidents.Now() == Noted(old(incidents.Now()), k, a, confidence, res.Applied())
      ensures OnlyHealOf(k, old(incidents.Now()), incidents.Now())
    {
      hide Steady, CountsMatch, OnlyHealOf;
      NotingKeepsCounts(counts, incidents.Now(), k, a, confidence, res);
      NotingChangesOnlyTheHeal(incidents.Now(), k, a, confidence, res.Applied());
      incidents.SetHealProposal(k, Encoded(a), confidence);
      if res.Applied() {
        incidents.MarkHealed(k);
      }
    }

    /**
     * An attempt on behalf of an incident not yet healed. Its proposal is noted when it
     * worked, and when it is a new diagnosis also when it did not, to be retried.
     */
    method Attempt(k: string, suspended: bool, b: Bundle, kind: string, a: Action, confidence: string, diagnosed: bool,
                   ans: HealAnswers, now: int)
      returns (worked: bool)
      requires Configured() && Steady() && Counted() && incidents.Valid() && clock == now
      requires k in incidents.open && !incidents.open[k].healed
      modifies this`used, this`healSeen, this`applied, this`states, this`events
      modifies client`workloads, client`claims, breaker`st, breaker`log, pending`blob
      modifies incidents`dirty, incidents.Objects()
      ensures Steady() && Counted() && incidents.Valid()
      ensures worked <==> old(Heals(suspended, b, a, confidence, ans, now))
      ensures Spent(suspended, b, a, confidence, ans.seen, now)
      ensures !worked ==> LeftAsBefore(now)
      ensures incidents.Now() ==
        if worked || diagnosed then Noted(old(incidents.Now()), k, a, confidence, worked) else old(incidents.Now())
      ensures OnlyHealOf(k, old(incidents.Now()), incidents.Now())
    {
      hide Configured, Steady, Heals, Extends, Spent, LeftAsBefore, Pacing.Obeyed, CountsMatch, OnlyHealOf;
      NothingChanged(k, incidents.Now());
      ghost var counts, open := applied, incidents.Now();
      var res := MaybeHeal(k, suspended, b, kind, a, confidence, ans, now);
      assert incidents.Now() == open;
      worked := res.Applied();
      if worked || diagnosed {
        RememberHeal(k, a, confidence, res, counts);
      }
    }

    /** Incident k has a proposal that decodes, is not healed, and healing it would work now. */
    ghost predicate Retries(k: string, suspended: bool, evidence: Option<Bundle>, ans: HealAnswers, now: int)
      reads `used, `healSeen, breaker, client, incidents, incidents.Objects()
    {
      var open := incidents.Now();
      && on.healing && evidence.Some?
      && k in open && open[k].proposal.Some? && open[k].proposal.value.Encoded? && !open[k].healed
      && Heals(suspended, evidence.value, open[k].proposal.value.action, open[k].confidence, ans, now)
    }

    /** Re-attempts a remembered heal of an incident not yet healed, on fresh evidence. */
    method MaybeRetryHeal(k: string, kind: string, suspended: bool, evidence: Option<Bundle>, ans: HealAnswers,
                          now: int)
      requires Configured() && Steady() && Counted() && incidents.Valid() && clock == now
      modifies this`used, this`healSeen, this`applied, this`states, this`events
      modifies client`workloads, client`claims, breaker`st, breaker`log, pending`blob
      modifies incidents`dirty, incidents.Objects()
      ensures Steady() && Counted() && incidents.Valid()
      ensures OnlyHealOf(k, old(incidents.Now()), incidents.Now())
      ensures !old(Retries(k, suspended, evidence, ans, now)) ==> incidents.Now() == old(incidents.Now())
      ensures k in old(incidents.Now()) && old(incidents.Now())[k].proposal.None? ==>
        incidents.Now() == old(incidents.Now())
      ensures old(Retries(k, suspended, evidence, ans, now)) ==> k in incidents.open && incidents.Now()[k].healed
    {
      hide Configured, Steady, Counted, Heals, OnlyHealOf, Spent, LeftAsBefore;
      NothingChanged(k, incidents.Now());
      if !on.healing {
        return;
      }
      var proposal, confidence, healed, ok := incidents.HealProposal(k);
      if !ok || healed || proposal.None? || proposal.value.Garbage? || evidence.None? {
        return;
      }
      var worked := Attempt(k, suspended, evidence.value, kind, proposal.value.action, confidence, false, ans, now);
    }

    // ----- Replays from the playbook -----

    /** The playbook has taken one of its own steps. */
    ghost method PlaybookMoved(before: Playbook.State<Blob>, op: PlaybookTheorems.Op<Blob>)
      requires playbook.Valid() && PlaybookTheorems.Safe(before, clock)
      requires PlaybookTheorems.Kept(playbook.opts, diary, before, clock)
      requires PlaybookTheorems.Next(playbook.opts, before, op, clock, playbook.Value())
      modifies this`diary
      ensures Guarded() && diary == PlaybookTheorems.Entered(old(diary), op, clock, playbook.Value())
    {
      hide PlaybookTheorems.Next, PlaybookTheorems.Safe, PlaybookTheorems.Kept;
      PlaybookTheorems.SafeStep(playbook.opts, before, op, clock, playbook.Value());
      PlaybookTheorems.EnteringKeeps(playbook.opts, diary, before, op, clock, playbook.Value());
      diary := PlaybookTheorems.Entered(diary, op, clock, playbook.Value());
    }

    method NoteHit(owner: string, kind: string, now: int)
      requires Sound() && Counted() && clock == now
      modifies this`diary, playbook`entries, playbook`dirty
      ensures Sound() && Counted() && incidents.Now() == old(incidents.Now())
      ensures playbook.Value() == Playbook.Hit(old(playbook.Value()), Playbook.Key(owner, kind), now)
      ensures diary.ops == old(diary.ops) + [PlaybookTheorems.MarkHit(owner, kind)]
    {
      hide Steady, CountsMatch, PlaybookTheorems.Safe, PlaybookTheorems.Kept;
      ghost var before := playbook.Value();
      playbook.MarkHit(owner, kind, now);
      PlaybookMoved(before, PlaybookTheorems.MarkHit(owner, kind));
    }

    /** A fix that no longer decodes is dropped, without counting against its pair. */
    method DropGarbage(owner: string, kind: string)
      requires Guarded()
      modifies this`diary, playbook`entries, playbook`dirty
      ensures Guarded() && playbook.Value() == Playbook.Evicted(old(playbook.Value()), Playbook.Key(owner, kind))
      ensures diary.ops == old(diary.ops) + [PlaybookTheorems.Evict(owner, kind)]
    {
      hide PlaybookTheorems.Safe, PlaybookTheorems.Kept;
      ghost var before := playbook.Value();
      var removed := playbook.Evict(owner, kind);
      PlaybookMoved(before, PlaybookTheorems.Evict(owner, kind));
    }

    /** What the playbook remembers for this pair, if replays are configured and the pod has a controller. */
    function Remembered(owner: Option<string>, kind: string): Option<Playbook.Entry<Blob>>
      reads playbook
    {
      if on.playbook && on.healing && owner.Some? then playbook.Lookup(owner.value, kind) else None
    }

    /** The pair has a remembered fix that decodes, and healing with it would work now. */
    ghost predicate Replays(owner: Option<string>, kind: string, suspended: bool, b: Bundle, ans: HealAnswers, now: int)
      reads `used, `healSeen, breaker, client, playbook
    {
      var entry := Remembered(owner, kind);
      && entry.Some? && entry.value.action.Encoded?
      && Heals(suspended, b, entry.value.action.action, entry.value.confidence, ans, now)
    }

    /** A remembered fix that decodes is attempted, and takes of the budget and the cooldowns what an attempt takes. */
    ghost function UsedAfterReplay(owner: Option<string>, kind: string, suspended: bool): nat
      reads `used, playbook
    {
      var entry := Remembered(owner, kind);
      if entry.Some? && entry.value.action.Encoded? then UsedAfter(used, suspended) else used
    }

    ghost function SeenAfterReplay(owner: Option<string>, kind: string, suspended: bool, b: Bundle, key: Option<string>,
                                   now: int): Pacing.Seen
      reads `used, `healSeen, breaker, playbook
    {
      var entry := Remembered(owner, kind);
      if entry.Some? && entry.value.action.Encoded?
      then SeenAfter(used, healSeen, suspended, b, entry.value.action.action, entry.value.confidence, key, now)
      else healSeen
    }

    /** A replay counts as a hit, a fix that does not decode is dropped, and otherwise the book stays. */
    ghost function BookAfter(book: Playbook.State<Blob>, entry: Option<Playbook.Entry<Blob>>, owner: Option<string>,
                             kind: string, now: int, handled: bool): Playbook.State<Blob>
    {
      if entry.None? || owner.None? then book
      else if entry.value.action.Garbage? then Playbook.Evicted(book, Playbook.Key(owner.value, kind))
      else if handled then Playbook.Hit(book, Playbook.Key(owner.value, kind), now)
      else book
    }

    /** Replays a fix that already held for this workload and problem; false hands the incident to the model. */
    method TryPlaybook(k: string, kind: string, suspended: bool, b: Bundle, owner: Option<string>, ans: HealAnswers,
                       now: int)
      returns (handled: bool)
      requires Configured() && Sound() && Counted() && clock == now
      requires k in incidents.open && !incidents.open[k].healed
      modifies this`used, this`healSeen, this`applied, this`states, this`events
      modifies client`workloads, client`claims, breaker`st, breaker`log, pending`blob
      modifies this`diary, playbook`entries, playbook`dirty, incidents`dirty, incidents.Objects()
      ensures Sound() && Counted()
      ensures OnlyHealOf(k, old(incidents.Now()), incidents.Now())
      ensures handled <==> incidents.Now()[k].healed
      ensures handled <==> old(Replays(owner, kind, suspended, b, ans, now))
      ensures handled ==> !Quarantined(old(playbook.Value()), owner.value, kind, now)
      ensures !handled ==> incidents.Now() == old(incidents.Now())
      ensures playbook.Value() ==
        BookAfter(old(playbook.Value()), old(Remembered(owner, kind)), owner, kind, now, handled)
      ensures !handled ==>
        && LeftAsBefore(now) && used == old(UsedAfterReplay(owner, kind, suspended))
        && healSeen == old(SeenAfterReplay(owner, kind, suspended, b, ans.seen, now))
    {
      hide Steady, Counted, Heals, OnlyHealOf, UsedAfter, SeenAfter, BreakerOpen;
      NothingChanged(k, incidents.Now());
      var entry := Remembered(owner, kind);
      if entry.None? {
        return false;
      }
      if entry.value.action.Garbage? {
        DropGarbage(owner.value, kind);
        return false;
      }
      handled := Replay(k, kind, suspended, b, owner.value, entry.value, ans, now);
    }

    method Replay(k: string, kind: string, suspended: bool, b: Bundle, owner: string, entry: Playbook.Entry<Blob>,
                  ans: HealAnswers, now: int)
      returns (handled: bool)
      requires Configured() && Sound() && Counted() && clock == now && entry.action.Encoded?
      requires k in incidents.open && !incidents.open[k].healed
      modifies this`used, this`healSeen, this`applied, this`states, this`events
      modifies client`workloads, client`claims, breaker`st, breaker`log, pending`blob
      modifies this`diary, playbook`entries, playbook`dirty, incidents`dirty, incidents.Objects()
      ensures Sound() && Counted()
      ensures OnlyHealOf(k, old(incidents.Now()), incidents.Now())
      ensures handled <==> incidents.Now()[k].healed
      ensures handled <==> old(Heals(suspended, b, entry.action.action, entry.confidence, ans, now))
      ensures !handled ==> incidents.Now() == old(incidents.Now())
      ensures playbook.Value() == if handled then Playbook.Hit(old(playbook.Value()), Playbook.Key(owner, kind), now)
                                  else old(playbook.Value())
      ensures !handled ==> Spent(suspended, b, entry.action.action, entry.confidence, ans.seen, now)
      ensures !handled ==> LeftAsBefore(now)
    {
      hide Steady, Guarded, CountsMatch, Heals, OnlyHealOf, Spent, LeftAsBefore;
      handled := Attempt(k, suspended, b, kind, entry.action.action, entry.confidence, false, ans, now);
      if handled {
        NoteHit(owner, kind, now);
      }
    }

    /**
     * Handling an incident heals it: with its remembered fix, or failing that with what
     * is diagnosed, if that would work with what the replay has left of budget and cooldowns.
     */
    ghost predicate WillHeal(kind: string, suspended: bool, ans: Answers, now: int)
      reads `used, `healSeen, breaker, client, playbook
    {
      && ans.evidence.Some?
      && var b := ans.evidence.value;
         || Replays(ans.owner, kind, suspended, b, ans.replay, now)
         || (ans.diagnosis.Some? && DiagnosisHeals(kind, suspended, b, ans, now))
    }

    ghost predicate DiagnosisHeals(kind: string, suspended: bool, b: Bundle, ans: Answers, now: int)
      requires ans.diagnosis.Some?
      reads `used, `healSeen, breaker, client, playbook
    {
      HealsWith(UsedAfterReplay(ans.owner, kind, suspended),
                SeenAfterReplay(ans.owner, kind, suspended, b, ans.replay.seen, now), suspended, b,
                ans.diagnosis.value.action, ans.diagnosis.value.confidence, ans.heal, now)
    }

    /** While a surge suspends healing no incident is healed by being handled. */
    lemma SurgeHealsNothing(kind: string, ans: Answers, now: int)
      ensures !WillHeal(kind, true, ans, now)
    {
      hide Validator.Validate, Executor.Executes;
    }

    /** A new incident: evidence, then a replay or a diagnosis whose proposal is attempted and remembered. */
    method Handle(k: string, suspended: bool, ans: Answers, now: int)
      requires Configured() && Sound() && Counted() && clock == now
      requires k in incidents.open && !incidents.open[k].healed
      modifies this`used, this`healSeen, this`applied, this`states, this`events
      modifies client`workloads, client`claims, breaker`st, breaker`log, pending`blob
      modifies this`diary, playbook`entries, playbook`dirty, incidents`dirty, incidents.Objects()
      ensures Sound() && Counted()
      ensures OnlyHealOf(k, old(incidents.Now()), incidents.Now())
      ensures ans.evidence.Some? ==> Treated(incidents.Now(), k, ans.diagnosis)
      ensures k in incidents.open
      ensures incidents.open[k].healed <==> old(WillHeal(incidents.open[k].trigger.kind.Name(), suspended, ans, now))
    {
      hide Sound, Counted, OnlyHealOf, Treated, Replays, DiagnosisHeals;
      if ans.evidence.None? {
        NothingChanged(k, incidents.Now());
        return;
      }
      Treat(k, incidents.open[k].trigger.kind.Name(), suspended, ans.evidence.value, ans, now);
    }

    method Treat(k: string, kind: string, suspended: bool, b: Bundle, ans: Answers, now: int)
      requires Configured() && Sound() && Counted() && clock == now
      requires k in incidents.open && !incidents.open[k].healed
      modifies this`used, this`healSeen, this`applied, this`states, this`events
      modifies client`workloads, client`claims, breaker`st, breaker`log, pending`blob
      modifies this`diary, playbook`entries, playbook`dirty, incidents`dirty, incidents.Objects()
      ensures Sound() && Counted()
      ensures OnlyHealOf(k, old(incidents.Now()), incidents.Now())
      ensures Treated(incidents.Now(), k, ans.diagnosis) && k in incidents.open
      ensures incidents.open[k].healed <==>
        || old(Replays(ans.owner, kind, suspended, b, ans.replay, now))
        || (ans.diagnosis.Some? && old(DiagnosisHeals(kind, suspended, b, ans, now)))
    {
      hide Sound, Counted, OnlyHealOf, Replays, BookAfter, UsedAfterReplay, SeenAfterReplay, BreakerOpen,
        Validator.Validate, Executor.Executes;
      ghost var usedThen := UsedAfterReplay(ans.owner, kind, suspended);
      ghost var seenThen := SeenAfterReplay(ans.owner, kind, suspended, b, ans.replay.seen, now);
      var handled := TryPlaybook(k, kind, suspended, b, ans.owner, ans.replay, now);
      if handled || ans.diagnosis.None? {
        return;
      }
      var d := ans.diagnosis.value;
      TryDiagnosis(k, kind, suspended, b, d, ans.heal, now);
    }

    method TryDiagnosis(k: string, kind: string, suspended: bool, b: Bundle, d: Diagnosis, ans: HealAnswers, now: int)
      requires Configured() && Sound() && Counted() && clock == now
      requires k in incidents.open && !incidents.open[k].healed
      modifies this`used, this`healSeen, this`applied, this`states, this`events
      modifies client`workloads, client`claims, breaker`st, breaker`log, pending`blob
      modifies incidents`dirty, incidents.Objects()
      ensures Sound() && Counted()
      ensures OnlyHealOf(k, old(incidents.Now()), incidents.Now())
      ensures Treated(incidents.Now(), k, Some(d)) && k in incidents.open
      ensures incidents.open[k].healed <==> old(Heals(suspended, b, d.action, d.confidence, ans, now))
    {
      hide Steady, Guarded, Counted, OnlyHealOf, Heals, Spent, LeftAsBefore;
      var worked := Attempt(k, suspended, b, kind, d.action, d.confidence, true, ans, now);
    }

    // ----- Verifying earlier heals -----

    /** The playbook hears that a fix held, and learns it unless its pair is quarantined. */
    method Learn(rec: Record, now: int)
      requires Guarded() && clock == now
      modifies this`diary, playbook`entries, playbook`dirty
      ensures Guarded()
      ensures diary.ops == old(diary.ops)
        + [PlaybookTheorems.Learn(rec.ControllerKey(), rec.kind, rec.action, rec.confidence)]
    {
      hide PlaybookTheorems.Safe, PlaybookTheorems.Kept;
      ghost var before := playbook.Value();
      var learned := playbook.Record(rec.ControllerKey(), rec.kind, rec.action, rec.confidence, now);
      PlaybookMoved(before, PlaybookTheorems.Learn(rec.ControllerKey(), rec.kind, rec.action, rec.confidence));
    }

    /** The playbook hears of a heal that held, if there is one and the heal's action is on record. */
    method Praise(rec: Record, now: int)
      requires Guarded() && clock == now
      modifies this`diary, playbook`entries, playbook`dirty
      ensures Guarded()
      ensures diary.ops == old(diary.ops)
        + if on.playbook && rec.action.Some? then
            [PlaybookTheorems.Learn(rec.ControllerKey(), rec.kind, rec.action, rec.confidence)]
          else []
    {
      hide Guarded;
      if on.playbook && rec.action.Some? {
        Learn(rec, now);
      }
    }

    /** The playbook hears that a fix did not hold: it is forgotten, and counts against its pair. */
    method Blame(rec: Record, now: int)
      requires Guarded() && clock == now
      modifies this`diary, playbook`entries, playbook`scars, playbook`dirty
      ensures Guarded() && diary.ops == old(diary.ops) + [PlaybookTheorems.Fails(rec.ControllerKey(), rec.kind)]
    {
      hide PlaybookTheorems.Safe, PlaybookTheorems.Kept;
      ghost var before := playbook.Value();
      var removed, quarantined := playbook.Fail(rec.ControllerKey(), rec.kind, now);
      PlaybookMoved(before, PlaybookTheorems.Fails(rec.ControllerKey(), rec.kind));
    }

    /** All that playbook and breakers have heard. */
    ghost function Said(): Talk
      reads `diary, breaker
    {
      Talk(diary.ops, breaker.log)
    }

    /** The playbook and the breaker hear of a heal that did not hold. */
    method Condemn(rec: Record, key: string, now: int)
      requires Guarded() && InPace() && clock == now && breaker.Valid()
      modifies this`diary, breaker`st, breaker`log, playbook`entries, playbook`scars, playbook`dirty
      ensures Guarded() && InPace() && breaker.Valid()
      ensures diary.ops == old(diary.ops)
        + (if on.playbook then [PlaybookTheorems.Fails(rec.ControllerKey(), rec.kind)] else [])
      ensures on.breaker ==> breaker.LogOf(key) == old(breaker.LogOf(key)) + [Breaker.Rollback(now)]
      ensures on.breaker ==> forall k | k != key :: Breaker.LogIn(breaker.log, k) == Breaker.LogIn(old(breaker.log), k)
    {
      hide Pacing.Paced, PlaybookTheorems.Safe, PlaybookTheorems.Kept;
      if on.playbook {
        Blame(rec, now);
      }
      if on.breaker {
        ghost var was := breaker.log;
        var tripped := breaker.OnRollback(key, now);
        Pacing.RollbackKeepsPace(breaker.opts, was, breaker.log, events, key, now);
      }
    }

    method RetirePlaybook(now: int)
      requires Sound() && Counted() && clock == now
      modifies this`diary, playbook`entries, playbook`scars, playbook`dirty
      ensures Sound() && Counted() && incidents.Now() == old(incidents.Now())
      ensures playbook.Value() == Playbook.Retired(playbook.opts, old(playbook.Value()), now)
      ensures diary.ops == old(diary.ops) + [PlaybookTheorems.RetireOld]
    {
      hide Steady, CountsMatch, PlaybookTheorems.Safe, PlaybookTheorems.Kept;
      ghost var before := playbook.Value();
      var retired := playbook.Retire(now);
      PlaybookMoved(before, PlaybookTheorems.RetireOld);
    }

    method DropRecord(key: string, ans: VerifyAnswers) returns (deleted: bool)
      requires Configured() && Wired()
      modifies pending`blob
      ensures Wired()
      ensures Records() == if deleted then old(Records()) - {key} else old(Records())
    {
      HealStore.WithoutDropsKey(pending.keyOf, pending.blob, key);
      HealStore.WithoutKeepsOrder(pending.keyOf, pending.blob, key);
      deleted := pending.Delete(key, ans.readable, ans.writable);
    }

    /** The records whose grace has passed; each is still pending. */
    method Due(now: int) returns (due: seq<Record>)
      requires Configured() && Wired()
      ensures HealStore.OnePerKey(pending.keyOf, due)
      ensures forall i | 0 <= i < |due| :: now >= due[i].verifyAfter
      ensures AllPending(Records(), pending.keyOf, due, 0)
      ensures forall r | r in pending.blob && now >= r.verifyAfter :: r in due
    {
      due := [];
      var recs := pending.blob;
      for i := 0 to |recs|
        invariant HealStore.OnePerKey(pending.keyOf, due)
        invariant forall j | 0 <= j < |due| :: now >= due[j].verifyAfter && due[j] in recs[..i]
        invariant forall r | r in recs[..i] && now >= r.verifyAfter :: r in due
      {
        if now >= recs[i].verifyAfter {
          due := due + [recs[i]];
        }
      }
      forall j: nat | j < |due|
        ensures PendingIn(Records(), pending.keyOf, due[j])
      {
        assert recs[..|recs|] == recs && due[j] in recs;
        var i: nat :| i < |recs| && recs[i] == due[j];
        HealStore.ToMapFinds(pending.keyOf, recs, i);
      }
    }

    ghost predicate StillPending(rec: Record)
      reads pending
    {
      PendingIn(Records(), pending.keyOf, rec)
    }

    /** A verification is one more step, of which the breaker hears nothing. */
    ghost method ExtendByCheck(before: Lifecycle.State, e: Lifecycle.Event)
      requires Lifecycle.IsTrace(cfg, states, events) && states[0] == origin && states[|events|] == before
      requires Pacing.InSweep(mark, states, events, used, maxHeals) && InPace() && Cool()
      requires TraceTheorems.WellFiled(origin)
      requires e.Verify? && (e.stillFailing ==> e.key in mark.blamable)
      requires Current() == Lifecycle.Next(cfg, before, e)
      modifies this`states, this`events
      ensures Traced() && InPace() && Cool() && events == old(events) + [e] && states == old(states) + [Current()]
    {
      hide Lifecycle.Next, Lifecycle.IsTrace, Pacing.InSweep, Pacing.Paced, Pacing.Cooled;
      Pacing.VerifyingKeepsCool(cfg.opts, cooldown, events, healSeen, e, clock);
      if on.breaker {
        Pacing.VerifyingKeepsPace(breaker.opts, breaker.log, events, e, clock);
      }
      Extend(before, e);
    }

    /** One more step of the trace has checked this record, and playbook and breakers have heard of it. */
    twostate predicate HasChecked(rec: Record, stillFailing: bool, accepted: bool, deleted: bool, now: int)
      reads `states, `events, `diary, breaker, client, pending
    {
      var e := Lifecycle.Verify(rec.ControllerKey(), now, stillFailing, accepted, deleted);
      && events == old(events) + [e] && states == old(states) + [Current()]
      && ToldOf(on, old(Current()), e, old(Said()), Said()) && OthersKept(old(Records()), Records(), rec)
    }

    /** The workload recovered: the fix is learned and its record retired. */
    method Confirm(rec: Record, key: string, ans: VerifyAnswers, now: int) returns (deleted: bool)
      requires Configured() && Steady() && Guarded() && clock == now
      requires now >= rec.verifyAfter && StillPending(rec) && key == rec.ControllerKey()
      modifies this`states, this`events, this`diary, pending`blob, playbook`entries, playbook`dirty
      ensures Steady() && Guarded() && HasChecked(rec, false, ans.accepted, deleted, now)
    {
      hide Lifecycle.IsTrace, Lifecycle.AfterHeal, Lifecycle.AfterVerify, Validator.Validate, Pacing.InSweep, InPace,
        Cool, Guarded, TraceTheorems.WellFiled, ToldOf;
      ghost var before, said := Current(), Said();
      Praise(rec, now);
      deleted := DropRecord(key, ans);
      ghost var e := Lifecycle.Verify(key, now, false, ans.accepted, deleted);
      ToldOfSuccess(on, before, e, said, Said());
      TraceTheorems.PassedCheckIsStep(before, e, Current());
      ExtendByCheck(before, e);
    }

    /** The heal did not hold: its fix is forgotten, the breaker told, and the prior values restored. */
    method RollBack(rec: Record, key: string, ans: VerifyAnswers, now: int) returns (deleted: bool)
      requires Configured() && Steady() && Guarded() && clock == now && key in mark.blamable
      requires now >= rec.verifyAfter && StillPending(rec) && key == rec.ControllerKey() && on.verifying
      modifies this`states, this`events, this`diary, client`workloads, breaker`st, breaker`log, pending`blob
      modifies playbook`entries, playbook`scars, playbook`dirty
      ensures Steady() && Guarded() && HasChecked(rec, true, ans.accepted, deleted, now)
    {
      hide Lifecycle.IsTrace, Lifecycle.AfterHeal, Lifecycle.AfterVerify, Validator.Validate, Pacing.InSweep, InPace,
        Cool, Guarded, Executor.CanPutBack, Executor.PutBackOn, TraceTheorems.WellFiled, ToldOf;
      ghost var before, said := Current(), Said();
      Condemn(rec, key, now);
      deleted := UndoHeal(rec, key, ans);
      ghost var e := Lifecycle.Verify(key, now, true, ans.accepted, deleted);
      assert before.pending[key] == rec;
      ToldOfFailure(on, before, e, said, Said());
      TraceTheorems.FailedCheckIsStep(before, e, Current());
      ExtendByCheck(before, e);
    }

    /** At most this record has gone. */
    ghost predicate OthersKept(before: map<string, Record>, after: map<string, Record>, rec: Record) {
      AtMostGone(before, after, pending.keyOf(rec))
    }

    /** The record is dropped only after a successful rollback, so a failed one is tried again. */
    method UndoHeal(rec: Record, key: string, ans: VerifyAnswers) returns (deleted: bool)
      requires Configured() && Wired() && on.verifying
      modifies client`workloads, pending`blob
      ensures Wired()
      ensures if Executor.CanPutBack(old(client.workloads), rec) && ans.accepted then
                Executor.PutBackOn(old(client.workloads), rec, client.workloads)
                && Records() == if deleted then old(Records()) - {key} else old(Records())
              else client.workloads == old(client.workloads) && Records() == old(Records()) && !deleted
    {
      hide Executor.CanPutBack, Executor.PutBackOn;
      var r := healer.Rollback(rec, ans.accepted);
      if r.Err? {
        return false;
      }
      deleted := DropRecord(key, ans);
    }

    method VerifyOne(rec: Record, key: string, stillFailing: bool, ans: VerifyAnswers, now: int) returns (deleted: bool)
      requires Configured() && Steady() && Guarded() && clock == now && (stillFailing ==> key in mark.blamable)
      requires now >= rec.verifyAfter && StillPending(rec) && key == rec.ControllerKey() && on.verifying
      modifies this`states, this`events, this`diary, client`workloads, breaker`st, breaker`log, pending`blob
      modifies playbook`entries, playbook`scars, playbook`dirty
      ensures Steady() && Guarded() && HasChecked(rec, stillFailing, ans.accepted, deleted, now)
    {
      hide Steady, Guarded, HasChecked;
      match VerifyVerdict(rec, now, stillFailing) {
        case Healthy => deleted := Confirm(rec, key, ans, now);
        case Rollback => deleted := RollBack(rec, key, ans, now);
        case Pending => assert false;
      }
    }

    /** The sweep's mark blames exactly the controllers with a confirmed problem. */
    ghost predicate Blaming(problems: seq<Detect.Problem>, owners: Health.Owners)
      reads `mark
    {
      forall key :: key in mark.blamable <==> Health.Confirmed(problems, owners, key)
    }

    /** From a point on, playbook and breakers have heard of every check what is to be heard of it, and nothing else. */
    ghost predicate HeardSince(from: nat, before: Talk)
      reads `states, `events, `diary, breaker
    {
      ToldSince(on, states, events, from, before, Said())
    }

    /**
     * Every due record is checked, each against its own controller's health, and
     * playbook and breakers hear of each check.
     */
    method VerifyHeals(problems: seq<Detect.Problem>, readable: bool, owners: Health.Owners,
                       ans: string -> VerifyAnswers, now: int)
      requires Configured() && Steady() && Guarded() && clock == now && Blaming(problems, owners)
      modifies this`states, this`events, this`diary, client`workloads, breaker`st, breaker`log, pending`blob
      modifies playbook`entries, playbook`scars, playbook`dirty
      ensures Steady() && Guarded()
      ensures on.verifying && readable ==> forall r | r in old(pending.blob) && now >= r.verifyAfter ::
        FairlyChecked(states, events, |old(events)|, r, problems, owners, ans, now)
      ensures HeardSince(|old(events)|, old(Said()))
      ensures !on.verifying || !readable ==> events == old(events)
    {
      hide InPace, Cool, Guarded, Lifecycle.IsTrace, Pacing.InSweep, Health.IsUnhealthy;
      NothingHeardYet();
      if !on.verifying || !readable {
        return;
      }
      var due := Due(now);
      if due == [] {
        return;
      }
      var unhealthy := Health.UnhealthyControllers(problems, owners);
      CheckAll(due, unhealthy, ans, now);
      EveryDueFairlyChecked(states, events, |old(events)|, due, unhealthy, problems, owners, ans, now);
    }

    lemma NothingHeardYet()
      requires Traced()
      ensures HeardSince(|events|, Said())
    {
      hide Lifecycle.StepAt, Pacing.InSweep, ToldSince;
      NothingToldYet(on, states, events, Said());
    }

    method CheckAll(due: seq<Record>, unhealthy: set<string>, ans: string -> VerifyAnswers, now: int)
      requires Configured() && Steady() && Guarded() && clock == now && on.verifying
      requires forall i | 0 <= i < |due| :: now >= due[i].verifyAfter
      requires HealStore.OnePerKey(pending.keyOf, due) && AllPending(Records(), pending.keyOf, due, 0)
      requires forall key | key in unhealthy :: key in mark.blamable
      modifies this`states, this`events, this`diary, client`workloads, breaker`st, breaker`log, pending`blob
      modifies playbook`entries, playbook`scars, playbook`dirty
      ensures Steady() && Guarded() && HeardSince(|old(events)|, old(Said()))
      ensures AllChecked(states, events, |old(events)|, due, |due|, unhealthy, ans, now)
    {
      hide Guarded, Wired, InPace, Cool, Lifecycle.IsTrace, Pacing.InSweep, HeardSince, AllChecked, Checked;
      ghost var from := |events|;
      NothingHeardYet();
      NoneCheckedYet(states, events, from, due, unhealthy, ans, now);
      for i := 0 to |due|
        invariant Steady() && Guarded() && from <= |events|
        invariant AllPending(Records(), pending.keyOf, due, i)
        invariant AllChecked(states, events, from, due, i, unhealthy, ans, now)
        invariant HeardSince(from, old(Said()))
      {
        CheckOne(due, i, unhealthy, ans, now, from, old(Said()));
      }
    }

    method CheckOne(due: seq<Record>, i: nat, unhealthy: set<string>, ans: string -> VerifyAnswers, now: int,
                    ghost from: nat, ghost before: Talk)
      requires Configured() && Steady() && Guarded() && clock == now && on.verifying
      requires i < |due| && now >= due[i].verifyAfter && from <= |events|
      requires HealStore.OnePerKey(pending.keyOf, due) && AllPending(Records(), pending.keyOf, due, i)
      requires forall key | key in unhealthy :: key in mark.blamable
      requires AllChecked(states, events, from, due, i, unhealthy, ans, now) && HeardSince(from, before)
      modifies this`states, this`events, this`diary, client`workloads, breaker`st, breaker`log, pending`blob
      modifies playbook`entries, playbook`scars, playbook`dirty
      ensures Steady() && Guarded() && from <= |events|
      ensures AllPending(Records(), pending.keyOf, due, i + 1)
      ensures AllChecked(states, events, from, due, i + 1, unhealthy, ans, now) && HeardSince(from, before)
    {
      hide Steady, Guarded, TraceTheorems.ChecksRecord, AllChecked, AllPending, ToldOf, ToldSince, IsCheck;
      var key := due[i].ControllerKey();
      ghost var states0, events0, records, said := states, events, Records(), Said();
      StillToCheck(records, pending.keyOf, due, i);
      TraceEnds();
      var deleted := VerifyOne(due[i], key, key in unhealthy, ans(key), now);
      ghost var e := Lifecycle.Verify(key, now, key in unhealthy, ans(key).accepted, deleted);
      LastIsCheck(states0, events0, e, due[i], unhealthy, now);
      OneMoreChecked(states0, events0, e, Current(), from, due, i, unhealthy, ans, now);
      OthersStayPending(records, Records(), pending.keyOf, due, i);
      ToldOneMore(on, states0, events0, e, Current(), from, before, said, Said());
    }

    lemma TraceEnds()
      requires Steady()
      ensures |states| == |events| + 1 && states[|events|] == Current()
    {
      hide Wired, InPace, Cool, Pacing.InSweep, Lifecycle.StepAt;
    }

    /** The trace's last step has checked this record. */
    lemma LastIsCheck(states0: seq<Lifecycle.State>, events0: seq<Lifecycle.Event>, e: Lifecycle.Event, rec: Record,
                      unhealthy: set<string>, now: int)
      requires Steady() && |states0| == |events0| + 1 && states == states0 + [Current()] && events == events0 + [e]
      requires e.Verify? && e.key == rec.ControllerKey() && e.now == now && (e.stillFailing <==> e.key in unhealthy)
      requires e.key in states0[|events0|].pending && states0[|events0|].pending[e.key] == rec
      ensures IsCheck(states0[|events0|], e, Current(), rec, unhealthy, e.accepted, now)
    {
      hide Wired, InPace, Cool, Pacing.InSweep, Lifecycle.StepAt, TraceTheorems.ChecksRecord;
      TraceTheorems.CheckEffect(cfg, states, events, |events0|);
      assert states[|events0|] == states0[|events0|];
    }

    // ----- The sweep -----

    /** Correlates one problem; a new incident starts a lifetime with no heal, and is a newcomer. */
    method Correlate(p: Detect.Problem, now: int, before: seq<string>, ghost seen: seq<Detect.Problem>,
                     ghost was: set<string>)
      returns (k: string, isNew: bool, newcomers: seq<string>)
      requires incidents.Valid() && Counted() && InHand(incidents.Now(), now, before, seen)
      requires Newcomers(was, before, seen) && OpenedBy(was, incidents.open.Keys, seen)
      modifies this`applied, incidents, incidents.Objects()
      ensures incidents.Valid() && Counted() && InHand(incidents.Now(), now, newcomers, seen + [p])
      ensures Newcomers(was, newcomers, seen + [p]) && OpenedBy(was, incidents.open.Keys, seen + [p])
      ensures k in incidents.open && (isNew <==> k !in old(incidents.open))
      ensures fresh(incidents.Objects() - old(incidents.Objects()))
    {
      hide CountsMatch, InHand, Newcomers, OpenedBy;
      ghost var open, counts := incidents.Now(), applied;
      NewcomersStep(was, incidents.open.Keys, before, seen, p);
      applied := if Incident.Key(p) in applied then applied else applied[Incident.Key(p) := 0];
      var inc, notice := incidents.Observe(p, now);
      k, isNew, newcomers := inc.key, notice.New?, before;
      CorrelatingKeepsCounts(counts, open, p, now, incidents.Now(), notice, k);
      CorrelatingKeepsInHand(open, p, now, newcomers, seen, incidents.Now(), notice, k);
      if isNew {
        OneMoreNewcomer(incidents.Now(), now, newcomers, seen + [p], k);
        newcomers := newcomers + [k];
      }
      assert incidents.open.Keys == old(incidents.open).Keys + {k};
    }

    /** Drops the incidents that have gone quiet, and with them their lifetimes' counts. */
    method ReapQuiet(now: int, ghost newcomers: seq<string>, ghost seen: seq<Detect.Problem>)
      requires incidents.resolveAfter >= 0
      requires incidents.Valid() && Counted() && InHand(incidents.Now(), now, newcomers, seen)
      modifies this`applied, incidents
      ensures incidents.Valid() && Counted() && InHand(incidents.Now(), now, newcomers, seen)
      ensures incidents.Now() == Incident.Reaped(old(incidents.Now()), now, incidents.resolveAfter)
      ensures incidents.Objects() <= old(incidents.Objects())
    {
      hide CountsMatch, InHand;
      ReapingKeepsCounts(applied, incidents.Now(), now, incidents.resolveAfter);
      ReapingKeepsInHand(incidents.Now(), now, incidents.resolveAfter, newcomers, seen);
      var resolved := incidents.Reap(now);
      applied := StillOpen(applied, incidents.Now());
    }

    method CorrelateOne(p: Detect.Problem, ans: Answers, now: int, before: seq<string>, ghost seen: seq<Detect.Problem>,
                        ghost was: set<string>)
      returns (newcomers: seq<string>)
      requires Configured() && Steady() && Counted() && incidents.Valid() && clock == now
      requires InHand(incidents.Now(), now, before, seen)
      requires Newcomers(was, before, seen) && OpenedBy(was, incidents.open.Keys, seen)
      modifies this`used, this`healSeen, this`applied, this`states, this`events
      modifies client`workloads, client`claims, breaker`st, breaker`log, pending`blob
      modifies incidents, incidents.Objects()
      ensures Steady() && Counted() && incidents.Valid()
      ensures InHand(incidents.Now(), now, newcomers, seen + [p])
      ensures Newcomers(was, newcomers, seen + [p]) && OpenedBy(was, incidents.open.Keys, seen + [p])
      ensures fresh(incidents.Objects() - old(incidents.Objects()))
    {
      hide Configured, Steady, Counted, InHand, Newcomers, OpenedBy, OnlyHealOf, Retries, Incident.Observed;
      var k, isNew;
      k, isNew, newcomers := Correlate(p, now, before, seen, was);
      if isNew {
        return;
      }
      ghost var open := incidents.Now();
      MaybeRetryHeal(k, incidents.open[k].trigger.kind.Name(), false, ans.evidence, ans.heal, now);
      RetryKeepsInHand(open, incidents.Now(), now, k, newcomers, seen + [p]);
    }

    /** Every problem finds its incident; one already open may have its heal retried. */
    method CorrelateAll(problems: seq<Detect.Problem>, w: World, now: int) returns (newcomers: seq<string>)
      requires Configured() && Steady() && Counted() && incidents.Valid() && clock == now
      modifies this`used, this`healSeen, this`applied, this`states, this`events
      modifies client`workloads, client`claims, breaker`st, breaker`log, pending`blob
      modifies incidents, incidents.Objects()
      ensures Steady() && Counted() && incidents.Valid()
      ensures InHand(incidents.Now(), now, newcomers, problems)
      ensures Newcomers(old(incidents.open).Keys, newcomers, problems)
      ensures fresh(incidents.Objects() - old(incidents.Objects()))
    {
      hide Steady, Counted, Newcomers, OpenedBy;
      newcomers := [];
      ghost var was := incidents.open.Keys;
      NoNewcomersYet(was);
      assert problems[..0] == [];
      for i := 0 to |problems|
        invariant Steady() && Counted() && incidents.Valid()
        invariant InHand(incidents.Now(), now, newcomers, problems[..i])
        invariant Newcomers(was, newcomers, problems[..i]) && OpenedBy(was, incidents.open.Keys, problems[..i])
        invariant fresh(incidents.Objects() - old(incidents.Objects()))
      {
        newcomers := CorrelateOne(problems[i], w.retries(i), now, newcomers, problems[..i], was);
        assert problems[..i + 1] == problems[..i] + [problems[i]];
      }
      assert problems[..|problems|] == problems;
    }

    /** Handles the first n newcomers. */
    method HandleAll(newcomers: seq<string>, n: nat, w: World, now: int, ghost seen: seq<Detect.Problem>)
      requires Configured() && Sound() && Counted() && clock == now && InHand(incidents.Now(), now, newcomers, seen)
      requires n <= |newcomers|
      modifies this`used, this`healSeen, this`applied, this`states, this`events
      modifies client`workloads, client`claims, breaker`st, breaker`log, pending`blob
      modifies this`diary, playbook`entries, playbook`dirty, incidents`dirty, incidents.Objects()
      ensures Sound() && Counted() && InHand(incidents.Now(), now, newcomers[n..], seen)
      ensures AllTreated(incidents.Now(), newcomers, w.handled, n)
      ensures w.surge ==> AllUnhealed(incidents.Now(), newcomers, n)
    {
      hide Configured, Sound, Counted, InHand, AllTreated, Treated, OnlyHealOf, WillHeal, AllUnhealed;
      AllDistinct(incidents.Now(), now, newcomers, seen);
      NoneHandledYet(incidents.Now(), newcomers, w.handled);
      assert newcomers[0..] == newcomers;
      for i := 0 to n
        invariant Sound() && Counted() && AllTreated(incidents.Now(), newcomers, w.handled, i)
        invariant w.surge ==> AllUnhealed(incidents.Now(), newcomers, i)
        invariant InHand(incidents.Now(), now, newcomers[i..], seen)
      {
        ghost var open := incidents.Now();
        assert newcomers[i..][0] == newcomers[i] && newcomers[i..][1..] == newcomers[i + 1..];
        FirstIsFresh(open, now, newcomers[i..], seen);
        SurgeHealsNothing(incidents.open[newcomers[i]].trigger.kind.Name(), w.handled(i), now);
        Handle(newcomers[i], w.surge, w.handled(i), now);
        HandlingKeepsInHand(open, incidents.Now(), now, newcomers[i..], seen);
        OneMoreTreated(open, incidents.Now(), newcomers, w.handled, i);
        if w.surge {
          OneMoreUnhealed(open, incidents.Now(), newcomers, i);
        }
      }
    }

    /** What follows correlation: due heals are verified, quiet incidents and unconfirmed fixes dropped. */
    method Review(problems: seq<Detect.Problem>, w: World, now: int, ghost newcomers: seq<string>)
      requires Configured() && Sound() && Counted() && clock == now && Blaming(problems, w.owners)
      requires InHand(incidents.Now(), now, newcomers, problems)
      modifies this`applied, this`states, this`events, client`workloads, breaker`st, breaker`log, pending`blob
      modifies this`diary, playbook`entries, playbook`scars, playbook`dirty, incidents
      ensures Sound() && Counted() && InHand(incidents.Now(), now, newcomers, problems)
      ensures incidents.Now() == Incident.Reaped(old(incidents.Now()), now, incidents.resolveAfter)
      ensures incidents.Objects() <= old(incidents.Objects())
      ensures on.verifying && w.listReadable ==> forall r | r in old(pending.blob) && now >= r.verifyAfter ::
        FairlyChecked(states, events, |old(events)|, r, problems, w.owners, w.verify, now)
    {
      hide Steady, Guarded, CountsMatch, InHand, FairlyChecked;
      VerifyHeals(problems, w.listReadable, w.owners, w.verify, now);
      ReapQuiet(now, newcomers, problems);
      if on.playbook {
        RetirePlaybook(now);
      }
    }

    /** The clock moves on, the budget is fresh, and what happens from here on is this sweep's. */
    method BeginSweep(ghost problems: seq<Detect.Problem>, ghost owners: Health.Owners, ghost now: int)
      requires Sound() && clock <= now
      modifies this`used, this`mark, this`clock
      ensures Sound() && clock == now && Blaming(problems, owners)
      ensures mark.states == old(states) && mark.events == old(events)
    {
      hide Lifecycle.IsTrace, Pacing.InSweep, Pacing.Paced, Pacing.Cooled;
      used := 0;
      SafeLater(playbook.Value(), clock, now);
      PlaybookTheorems.KeptLater(playbook.opts, diary, playbook.Value(), clock, now);
      if on.breaker {
        Pacing.TimeKeepsPace(breaker.opts, breaker.log, events, clock, now);
      }
      ghost var blamable := iset key | Health.Confirmed(problems, owners, key);
      Pacing.TimeKeepsCool(cfg.opts, cooldown, events, healSeen, clock, now);
      Pacing.NewSweep(states, events, blamable, maxHeals);
      mark := Pacing.Mark(states, events, blamable);
      clock := now;
    }

    /** The part of a sweep before any new incident is handled. */
    method Take(problems: seq<Detect.Problem>, w: World, now: int) returns (newcomers: seq<string>)
      requires Configured() && Sound() && Counted() && clock == now && Blaming(problems, w.owners)
      modifies this`used, this`healSeen, this`applied, this`states, this`events
      modifies client`workloads, client`claims, breaker`st, breaker`log, pending`blob
      modifies this`diary, playbook`entries, playbook`scars, playbook`dirty, incidents, incidents.Objects()
      ensures Sound() && Counted()
      ensures InHand(incidents.Now(), now, newcomers, problems) && fresh(incidents.Objects() - old(incidents.Objects()))
      ensures Newcomers(old(incidents.open).Keys, newcomers, problems)
    {
      hide Steady, Guarded, Counted, InHand, Newcomers, FairlyChecked;
      newcomers := CorrelateAll(problems, w, now);
      Review(problems, w, now, newcomers);
    }

    /** All of them, or as many as one sweep handles. */
    function Cap(n: nat): (c: nat)
      ensures c <= n && (maxAlerts > 0 ==> c <= maxAlerts) && (c == n || c == maxAlerts > 0)
    {
      if maxAlerts > 0 && n > maxAlerts then maxAlerts else n
    }

    /** Handles the newcomers, up to the cap; the others stay as they are. */
    method HandleCapped(newcomers: seq<string>, w: World, now: int, ghost seen: seq<Detect.Problem>)
      requires Configured() && Sound() && Counted() && clock == now && InHand(incidents.Now(), now, newcomers, seen)
      modifies this`used, this`healSeen, this`applied, this`states, this`events
      modifies client`workloads, client`claims, breaker`st, breaker`log, pending`blob
      modifies this`diary, playbook`entries, playbook`dirty, incidents`dirty, incidents.Objects()
      ensures Sound() && Counted() && AllSeen(incidents.Now(), now, seen)
      ensures AllTreated(incidents.Now(), newcomers, w.handled, Cap(|newcomers|))
      ensures NotHealed(incidents.Now(), newcomers, if w.surge then 0 else Cap(|newcomers|))
    {
      hide Sound, Counted, AllTreated;
      var n := |newcomers|;
      if maxAlerts > 0 && |newcomers| > maxAlerts {
        n := maxAlerts;
      }
      HandleAll(newcomers, n, w, now, seen);
      UntouchedAreUnhealed(incidents.Now(), now, newcomers, n, w.surge, seen);
    }

    /**
     * What this sweep has added to the history: no more heals than allowed, and no
     * rollback without a confirmed problem.
     */
    ghost predicate SweptSince(events0: seq<Lifecycle.Event>, problems: seq<Detect.Problem>, owners: Health.Owners)
      reads `events
    {
      && events0 <= events
      && (maxHeals > 0 ==> Lifecycle.HealsIn(events) <= Lifecycle.HealsIn(events0) + maxHeals)
      && forall i: nat | |events0| <= i < |events| && events[i].Verify? && events[i].stillFailing ::
           Health.Confirmed(problems, owners, events[i].key)
    }

    /**
     * Afterwards every problem of the sweep has an open incident, seen now; those opened
     * in it are the newcomers, and they have been handled, up to the cap. Those past the
     * cap are not healed, and while a surge suspends healing no newcomer is.
     */
    method Sweep(problems: seq<Detect.Problem>, w: World, now: int) returns (newcomers: seq<string>)
      requires Configured() && Sound() && Counted() && clock <= now
      modifies this, client`workloads, client`claims, breaker`st, breaker`log, pending`blob
      modifies this`diary, playbook`entries, playbook`scars, playbook`dirty, incidents, incidents.Objects()
      ensures Sound() && Counted() && clock == now
      ensures AllSeen(incidents.Now(), now, problems)
      ensures Newcomers(old(incidents.open).Keys, newcomers, problems)
      ensures forall i, j | 0 <= i < j < |newcomers| :: newcomers[i] != newcomers[j]
      ensures AllTreated(incidents.Now(), newcomers, w.handled, Cap(|newcomers|))
      ensures NotHealed(incidents.Now(), newcomers, if w.surge then 0 else Cap(|newcomers|))
      ensures old(states) <= states && SweptSince(old(events), problems, w.owners)
    {
      hide Traced, Wired, InPace, Cool, Guarded, Counted, Newcomers, AllSeen, AllTreated, NotHealed;
      BeginSweep(problems, w.owners, now);
      newcomers := Take(problems, w, now);
      HandleCapped(newcomers, w, now, problems);
      SweepIsBounded(problems, w.owners);
    }

    // ----- What holds at any time -----

    lemma SweepIsBounded(problems: seq<Detect.Problem>, owners: Health.Owners)
      requires Traced() && Blaming(problems, owners)
      ensures mark.states <= states && SweptSince(mark.events, problems, owners)
    {
      hide Lifecycle.IsTrace;
      forall i: nat | |mark.events| <= i < |events| && events[i].Verify? && events[i].stillFailing
        ensures Health.Confirmed(problems, owners, events[i].key)
      {
        assert Pacing.FairAt(mark, events[i]);
      }
    }

    /** However an incident came by its heal, fresh, replayed or retried, its lifetime has had at most one. */
    lemma AtMostOneHeal(k: string)
      requires incidents.Valid() && Counted() && k in incidents.open
      ensures k in applied && applied[k] <= 1
      ensures applied[k] == 1 <==> incidents.open[k].healed
    {
      assert CountOk(applied, incidents.Now(), k);
    }

    /**
     * If the agent started in the envelope of some starting values, as an earlier
     * process leaves it, nobody else edits the workloads, and heals were judged on
     * evidence the workloads really showed at some time, every workload and every
     * pending old value is in that envelope.
     */
    lemma WorkloadsStayInEnvelope(start: Workloads)
      requires Traced() && Lifecycle.InEnvelope(cfg.opts, start, origin)
      requires Lifecycle.AllEvidenceKnown(cfg.opts, start, states, events)
      ensures Lifecycle.InEnvelope(cfg.opts, start, Current())
    {
      Lifecycle.RunStaysInEnvelope(cfg, start, states, events, |events|);
    }

    /** Any two heals that change one pod's container in one way are at least the cooldown apart. */
    lemma HealsCoolDown(i: nat, j: nat)
      requires Cool() && i < j < |events| && events[i].Heal? && events[j].Heal?
      ensures forall p, q |
        && Validator.Validate(events[i].b, events[i].confidence, events[i].a, cfg.opts) == Ok(p)
        && Validator.Validate(events[j].b, events[j].confidence, events[j].a, cfg.opts) == Ok(q)
        && p.kind == q.kind && p.namespace == q.namespace && p.pod == q.pod && p.container == q.container ::
        events[j].now - events[i].now >= cooldown
    {
      hide Validator.Validate;
      assert Pacing.ApartAt(cfg.opts, cooldown, events, i, j);
    }

    /**
     * In the agent's whole history: a heal recorded on evidence of what its controller
     * had is undone by its failed check, whatever happened elsewhere in between.
     */
    lemma FailedHealsAreUndone(i: nat, j: nat, p: Plan, ref: ControllerRef)
      requires Traced() && i < j < |events|
      requires TraceTheorems.HealedFrom(cfg, states[i], events[i], p, ref)
      requires forall k | i < k < j :: TraceTheorems.Elsewhere(events[k], KeyOf(ref))
      requires TraceTheorems.FailedCheck(events[j], KeyOf(ref), events[i].now + cfg.verifyAfter)
      ensures ref in states[i].workloads
      ensures TraceTheorems.Undoes(states[i].workloads[ref], p, states[j], ref, events[j].deleted, states[j + 1])
    {
      hide Lifecycle.StepAt, Pacing.InSweep, TraceTheorems.WellFiled, TraceTheorems.HealedFrom, TraceTheorems.Undoes,
        TraceTheorems.Elsewhere, KeyOf;
      TraceTheorems.StaysWellFiled(cfg, states, events, i);
      TraceTheorems.HealedHasController(cfg, states[i], events[i], p, ref);
      TraceTheorems.FailedHealIsUndone(cfg, states, events, i, j, p, ref);
    }

    /**
     * With an allowance of one heal a sweep, the scale-ups of the latest sweep fit
     * together on the snapshot they were judged on.
     */
    lemma OneHealSweepsFit(s: Capacity.Snapshot)
      requires Traced() && maxHeals == 1
      requires forall u | u in SharedSnapshot.ScaleUpsIn(cfg.opts, events[|mark.events|..]) :: u.b.capacity == Some(s)
      ensures SharedSnapshot.FitTogether(s,
                SharedSnapshot.Demands(SharedSnapshot.ScaleUpsIn(cfg.opts, events[|mark.events|..])))
    {
      assert events == mark.events + events[|mark.events|..];
      SharedSnapshot.FewHealsFewScaleUps(cfg.opts, maxHeals, s, mark.events, events[|mark.events|..]);
    }

    /**
     * Where every heal patched the controller its breaker was asked about, no window of
     * the whole history holds more than the breaker's MaxHeals applied heals of any one
     * controller.
     */
    lemma HealsAreBounded(key: string, x: int)
      requires InPace() && on.breaker && Breaker.WellConfigured(breaker.opts)
      requires forall e | e in events :: Lifecycle.AskedAsHealed(e)
      ensures |Breaker.HealsFrom(Lifecycle.TimesHealed(events, key), x, breaker.opts.window)| <= breaker.opts.maxHeals
    {
      Pacing.PacedMeansBounded(breaker.opts, breaker.log, events, clock, key, x);
    }
  }

  method MakeRecord(p: Plan, ctrl: ControllerRef, b: Bundle, before: Option<Container>, now: int, verifyAfter: int,
                    kind: string, a: Action, confidence: string)
    returns (rec: Record)
    ensures rec == SavedRecord(p, ctrl, b, before, now, verifyAfter, kind, a, confidence)
  {
    rec := RecordFromPlan(p, ctrl, before, now, verifyAfter);
    rec := rec.(kind := kind);
    if p.kind.ScaleReplicas? {
      rec := rec.(oldReplicas := b.replicas);
    }
    rec := rec.(action := Some(Encoded(a)), confidence := confidence);
  }
}
