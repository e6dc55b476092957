/**
 * What ties the trace of applied heals to the breaker's logs, to the cooldown, to the
 * budget of the sweep and to the health of the sweep's controllers.
 */
module Pacing {
  import opened Prelude
  import opened HealTypes
  import opened SweepState
  import Breaker
  import Lifecycle
  import Validator

  /** Everything each workload's breaker has been asked and told. */
  type Logs = map<string, seq<Breaker.Event>>

  // ----- The breaker -----

  predicate UpTo(log: seq<Breaker.Event>, clock: int) {
    Breaker.NonDecreasing(log) && (log != [] ==> log[|log| - 1].at <= clock)
  }

  /** The heals this breaker let happen are exactly those of the trace it was asked about. */
  predicate PacedAt(opts: Breaker.Options, logs: Logs, events: seq<Lifecycle.Event>, clock: int, key: string) {
    && UpTo(Breaker.LogIn(logs, key), clock)
    && Breaker.Run(opts, Breaker.LogIn(logs, key)).1 == Lifecycle.TimesAsked(events, key)
  }

  ghost predicate Paced(opts: Breaker.Options, logs: Logs, events: seq<Lifecycle.Event>, clock: int) {
    forall key :: PacedAt(opts, logs, events, clock, key)
  }

  predicate ObeyedAt(opts: Breaker.Options, was: Logs, after: Logs, seen: Option<string>, now: int, applied: bool,
                     key: string)
  {
    var log, log' := Breaker.LogIn(was, key), Breaker.LogIn(after, key);
    if seen != Some(key) then log' == log
    else if applied then
      !Breaker.OpenAt(Breaker.Run(opts, log).0, now) && log' == log + [Breaker.Ask(now)] + [Breaker.Heal(now)]
    else log' == log || log' == log + [Breaker.Ask(now)]
  }

  predicate AskedOfAt(opts: Breaker.Options, was: Logs, after: Logs, seen: Option<string>, now: int, permitted: bool,
                      key: string)
  {
    var log, log' := Breaker.LogIn(was, key), Breaker.LogIn(after, key);
    if seen != Some(key) then log' == log
    else if permitted then !Breaker.OpenAt(Breaker.Run(opts, log).0, now) && log' == log + [Breaker.Ask(now)]
    else log' == log || log' == log + [Breaker.Ask(now)]
  }

  /** Only the pod's own workload is asked about, and permission means its breaker is not open. */
  ghost predicate AskedOf(opts: Breaker.Options, was: Logs, after: Logs, seen: Option<string>, now: int,
                          permitted: bool)
  {
    forall key :: AskedOfAt(opts, was, after, seen, now, permitted, key)
  }

  lemma NothingAsked(opts: Breaker.Options, logs: Logs, seen: Option<string>, now: int)
    ensures AskedOf(opts, logs, logs, seen, now, false) && AskedOf(opts, logs, logs, None, now, true)
  {
  }

  lemma AskedOnce(opts: Breaker.Options, was: Logs, after: Logs, key: string, now: int, permitted: bool)
    requires Breaker.LogIn(after, key) == Breaker.LogIn(was, key) + [Breaker.Ask(now)]
    requires forall k | k != key :: Breaker.LogIn(after, k) == Breaker.LogIn(was, k)
    requires permitted ==> !Breaker.OpenAt(Breaker.Run(opts, Breaker.LogIn(was, key)).0, now)
    ensures AskedOf(opts, was, after, Some(key), now, permitted)
  {
  }

  /** Permission that was not used is still no more than asking. */
  lemma AskedAnyway(opts: Breaker.Options, was: Logs, after: Logs, seen: Option<string>, now: int)
    requires AskedOf(opts, was, after, seen, now, true)
    ensures AskedOf(opts, was, after, seen, now, false)
  {
    forall key
      ensures AskedOfAt(opts, was, after, seen, now, false, key)
    {
      assert AskedOfAt(opts, was, after, seen, now, true, key);
    }
  }

  /** Permission asked, and then the heal applied or not. */
  lemma AskedThenObeyed(opts: Breaker.Options, was: Logs, asked: Logs, after: Logs, seen: Option<string>, now: int,
                        permitted: bool, applied: bool)
    requires AskedOf(opts, was, asked, seen, now, permitted) && (applied ==> permitted)
    requires if applied && seen.Some?
             then Breaker.LogIn(after, seen.value) == Breaker.LogIn(asked, seen.value) + [Breaker.Heal(now)]
                  && forall k | k != seen.value :: Breaker.LogIn(after, k) == Breaker.LogIn(asked, k)
             else after == asked
    ensures Obeyed(opts, was, after, seen, now, applied)
  {
    forall key
      ensures ObeyedAt(opts, was, after, seen, now, applied, key)
    {
      assert AskedOfAt(opts, was, asked, seen, now, permitted, key);
    }
  }

  /** An applied heal had permission and is on its breaker's log; nothing else is, but for the asking. */
  ghost predicate Obeyed(opts: Breaker.Options, was: Logs, after: Logs, seen: Option<string>, now: int, applied: bool) {
    forall key :: ObeyedAt(opts, was, after, seen, now, applied, key)
  }

  lemma UpToSnoc(log: seq<Breaker.Event>, e: Breaker.Event)
    requires UpTo(log, e.at)
    ensures UpTo(log + [e], e.at)
  {
    forall i, j | 0 <= i < j < |log + [e]|
      ensures (log + [e])[i].at <= (log + [e])[j].at
    {
      assert log[i].at <= log[|log| - 1].at;
    }
  }

  lemma AskedAt(opts: Breaker.Options, log: seq<Breaker.Event>, now: int)
    requires UpTo(log, now)
    ensures var asked := log + [Breaker.Ask(now)];
      && UpTo(asked, now)
      && Breaker.Run(opts, asked) == (Breaker.Settled(Breaker.Run(opts, log).0, now), Breaker.Run(opts, log).1)
  {
    UpToSnoc(log, Breaker.Ask(now));
    Breaker.RunSnoc(opts, log, Breaker.Ask(now));
  }

  lemma HealedAt(opts: Breaker.Options, log: seq<Breaker.Event>, now: int)
    requires UpTo(log, now) && !Breaker.OpenAt(Breaker.Run(opts, log).0, now)
    ensures var healed := log + [Breaker.Ask(now)] + [Breaker.Heal(now)];
      UpTo(healed, now) && Breaker.Run(opts, healed).1 == Breaker.Run(opts, log).1 + [now]
  {
    AskedAt(opts, log, now);
    UpToSnoc(log + [Breaker.Ask(now)], Breaker.Heal(now));
    Breaker.RunSnoc(opts, log + [Breaker.Ask(now)], Breaker.Heal(now));
  }

  /** The trace has gained this attempt's heal if it was applied, and otherwise nothing. */
  predicate Gained(events: seq<Lifecycle.Event>, events': seq<Lifecycle.Event>, seen: Option<string>, now: int,
                   applied: bool)
  {
    if !applied then events' == events
    else
      && |events'| == |events| + 1 && events <= events'
      && events'[|events|].Heal? && events'[|events|].seen == seen && events'[|events|].now == now
  }

  /** The breaker was asked about the attempt, and hears of its heal exactly when the trace does. */
  lemma AttemptKeepsPace(opts: Breaker.Options, was: Logs, after: Logs, events: seq<Lifecycle.Event>,
                         events': seq<Lifecycle.Event>, seen: Option<string>, now: int, applied: bool)
    requires Paced(opts, was, events, now) && Obeyed(opts, was, after, seen, now, applied)
    requires Gained(events, events', seen, now, applied)
    ensures Paced(opts, after, events', now)
  {
    hide Breaker.Run, Lifecycle.TimesAsked, UpTo;
    if applied {
      assert events' == events + [events'[|events|]];
    }
    forall key
      ensures PacedAt(opts, after, events', now, key)
    {
      var log := Breaker.LogIn(was, key);
      assert PacedAt(opts, was, events, now, key) && ObeyedAt(opts, was, after, seen, now, applied, key);
      AskedAt(opts, log, now);
      if applied {
        Lifecycle.TimesAskedSnoc(events, events'[|events|], key);
        if seen == Some(key) {
          HealedAt(opts, log, now);
        }
      }
    }
  }

  /** Asking a breaker may settle it, but changes nobody's permission. */
  lemma AskingOpensNothing(opts: Breaker.Options, st: map<string, Breaker.State>, logs: Logs,
                           st': map<string, Breaker.State>, logs': Logs, seen: Option<string>, now: int, key: string)
    requires Breaker.Follows(opts, st, logs) && Breaker.Follows(opts, st', logs')
    requires Obeyed(opts, logs, logs', seen, now, false)
    ensures Breaker.OpenAt(Breaker.StateIn(st', key), now) == Breaker.OpenAt(Breaker.StateIn(st, key), now)
  {
    hide Breaker.Run;
    assert Breaker.FollowsAt(opts, st, logs, key) && Breaker.FollowsAt(opts, st', logs', key);
    assert ObeyedAt(opts, logs, logs', seen, now, false, key);
    Breaker.RunSnoc(opts, Breaker.LogIn(logs, key), Breaker.Ask(now));
  }

  lemma VerifyingKeepsPace(opts: Breaker.Options, logs: Logs, events: seq<Lifecycle.Event>, e: Lifecycle.Event,
                           clock: int)
    requires e.Verify? && Paced(opts, logs, events, clock)
    ensures Paced(opts, logs, events + [e], clock)
  {
    forall key
      ensures PacedAt(opts, logs, events + [e], clock, key)
    {
      assert PacedAt(opts, logs, events, clock, key);
      Lifecycle.TimesAskedSnoc(events, e, key);
    }
  }

  lemma RollbackKeepsPace(opts: Breaker.Options, was: Logs, after: Logs, events: seq<Lifecycle.Event>, key: string,
                          now: int)
    requires Paced(opts, was, events, now)
    requires Breaker.LogIn(after, key) == Breaker.LogIn(was, key) + [Breaker.Rollback(now)]
    requires forall k | k != key :: Breaker.LogIn(after, k) == Breaker.LogIn(was, k)
    ensures Paced(opts, after, events, now)
  {
    forall k
      ensures PacedAt(opts, after, events, now, k)
    {
      assert PacedAt(opts, was, events, now, k);
      if k == key {
        UpToSnoc(Breaker.LogIn(was, k), Breaker.Rollback(now));
        Breaker.RunSnoc(opts, Breaker.LogIn(was, k), Breaker.Rollback(now));
      }
    }
  }

  lemma TimeKeepsPace(opts: Breaker.Options, logs: Logs, events: seq<Lifecycle.Event>, clock: int, now: int)
    requires Paced(opts, logs, events, clock) && clock <= now
    ensures Paced(opts, logs, events, now)
  {
    forall key
      ensures PacedAt(opts, logs, events, now, key)
    {
      assert PacedAt(opts, logs, events, clock, key);
    }
  }

  /** When the breaker was asked about the controllers that were patched, no window holds more heals of any of them. */
  lemma PacedMeansBounded(opts: Breaker.Options, logs: Logs, events: seq<Lifecycle.Event>, clock: int, key: string,
                          x: int)
    requires Breaker.WellConfigured(opts) && Paced(opts, logs, events, clock)
    requires forall e | e in events :: Lifecycle.AskedAsHealed(e)
    ensures |Breaker.HealsFrom(Lifecycle.TimesHealed(events, key), x, opts.window)| <= opts.maxHeals
  {
    assert PacedAt(opts, logs, events, clock, key);
    Breaker.WellConfiguredIsBounded(opts, Breaker.LogIn(logs, key));
    Lifecycle.AskedTimesAreHealTimes(events, key);
  }

  // ----- The cooldown -----

  /** When each target was last let past its cooldown, whatever came of it. */
  type Seen = map<Target, int>

  /** What a heal changed; a verification changes no target. */
  function HealTarget(opts: Options, e: Lifecycle.Event): Option<Target> {
    if e.Verify? then None
    else
      var v := Validator.Validate(e.b, e.confidence, e.a, opts);
      if v.Ok? then Some(TargetOf(v.value)) else None
  }

  predicate NotedAt(opts: Options, events: seq<Lifecycle.Event>, seen: Seen, i: nat)
    requires i < |events|
  {
    var t := HealTarget(opts, events[i]);
    t.Some? ==> t.value in seen && events[i].now <= seen[t.value]
  }

  predicate ApartAt(opts: Options, cooldown: int, events: seq<Lifecycle.Event>, i: nat, j: nat)
    requires i < j < |events|
  {
    HealTarget(opts, events[i]).Some? && HealTarget(opts, events[i]) == HealTarget(opts, events[j]) ==>
      events[j].now - events[i].now >= cooldown
  }

  /** Any two heals of one target are at least the cooldown apart, and the next one will be. */
  ghost predicate Cooled(opts: Options, cooldown: int, events: seq<Lifecycle.Event>, seen: Seen, clock: int) {
    && (forall t | t in seen :: seen[t] <= clock)
    && (forall i: nat | i < |events| :: NotedAt(opts, events, seen, i))
    && forall i: nat, j: nat | i < j < |events| :: ApartAt(opts, cooldown, events, i, j)
  }

  predicate OutOfCooldown(seen: Seen, t: Target, cooldown: int, now: int) {
    t in seen ==> now - seen[t] >= cooldown
  }

  lemma PermissionKeepsCool(opts: Options, cooldown: int, events: seq<Lifecycle.Event>, seen: Seen, t: Target, now: int)
    requires Cooled(opts, cooldown, events, seen, now)
    ensures Cooled(opts, cooldown, events, seen[t := now], now)
  {
    hide HealTarget;
    var seen' := seen[t := now];
    forall i: nat | i < |events|
      ensures NotedAt(opts, events, seen', i)
    {
      assert NotedAt(opts, events, seen, i);
    }
  }

  lemma HealKeepsCool(opts: Options, cooldown: int, events: seq<Lifecycle.Event>, seen: Seen, t: Target,
                      e: Lifecycle.Event)
    requires Cooled(opts, cooldown, events, seen, e.now) && OutOfCooldown(seen, t, cooldown, e.now)
    requires HealTarget(opts, e) == Some(t)
    ensures Cooled(opts, cooldown, events + [e], seen[t := e.now], e.now)
  {
    hide HealTarget;
    PermissionKeepsCool(opts, cooldown, events, seen, t, e.now);
    var seen', longer := seen[t := e.now], events + [e];
    forall i: nat | i < |longer|
      ensures NotedAt(opts, longer, seen', i)
    {
      if i < |events| {
        assert NotedAt(opts, events, seen', i);
      }
    }
    forall i: nat, j: nat | i < j < |longer|
      ensures ApartAt(opts, cooldown, longer, i, j)
    {
      if j < |events| {
        assert ApartAt(opts, cooldown, events, i, j);
      } else {
        assert NotedAt(opts, events, seen, i);
      }
    }
  }

  lemma VerifyingKeepsCool(opts: Options, cooldown: int, events: seq<Lifecycle.Event>, seen: Seen, e: Lifecycle.Event,
                           clock: int)
    requires Cooled(opts, cooldown, events, seen, clock) && e.Verify?
    ensures Cooled(opts, cooldown, events + [e], seen, clock)
  {
    var longer := events + [e];
    assert HealTarget(opts, e).None?;
    hide HealTarget;
    forall i: nat | i < |longer|
      ensures NotedAt(opts, longer, seen, i)
    {
      if i < |events| {
        assert NotedAt(opts, events, seen, i);
      }
    }
    forall i: nat, j: nat | i < j < |longer|
      ensures ApartAt(opts, cooldown, longer, i, j)
    {
      if j < |events| {
        assert ApartAt(opts, cooldown, events, i, j);
      }
    }
  }

  lemma TimeKeepsCool(opts: Options, cooldown: int, events: seq<Lifecycle.Event>, seen: Seen, clock: int, now: int)
    requires Cooled(opts, cooldown, events, seen, clock) && clock <= now
    ensures Cooled(opts, cooldown, events, seen, now)
  {
    hide HealTarget;
  }

  // ----- The sweep -----

  /** Where the history stood when the sweep began, and the controllers its problems confirm. */
  datatype Mark = Mark(states: seq<Lifecycle.State>, events: seq<Lifecycle.Event>, blamable: iset<string>)

  /** Only a confirmed problem makes a verification fail. */
  predicate FairAt(mark: Mark, e: Lifecycle.Event) {
    e.Verify? && e.stillFailing ==> e.key in mark.blamable
  }

  /** The history has only grown, by no more heals than the sweep's budget has paid for and by fair verifications. */
  ghost predicate InSweep(mark: Mark, states: seq<Lifecycle.State>, events: seq<Lifecycle.Event>, used: nat,
                          maxHeals: int)
  {
    && mark.states <= states && mark.events <= events
    && (maxHeals > 0 ==> used <= maxHeals && Lifecycle.HealsIn(events) <= Lifecycle.HealsIn(mark.events) + used)
    && forall i: nat {:trigger FairAt(mark, events[i])} | |mark.events| <= i < |events| :: FairAt(mark, events[i])
  }

  lemma NewSweep(states: seq<Lifecycle.State>, events: seq<Lifecycle.Event>, blamable: iset<string>, maxHeals: int)
    ensures InSweep(Mark(states, events, blamable), states, events, 0, maxHeals)
  {
  }

  /** Each attempt that gets past the budget has one more heal paid for. */
  lemma Spend(mark: Mark, states: seq<Lifecycle.State>, events: seq<Lifecycle.Event>, used: nat, maxHeals: int,
              suspended: bool)
    requires InSweep(mark, states, events, used, maxHeals)
    ensures var spent := maxHeals > 0 && !suspended && used < maxHeals;
      && InSweep(mark, states, events, if spent then used + 1 else used, maxHeals)
      && (spent ==> Lifecycle.HealsIn(events) < Lifecycle.HealsIn(mark.events) + used + 1)
  {
  }

  lemma OneMoreEvent(mark: Mark, states: seq<Lifecycle.State>, events: seq<Lifecycle.Event>, used: nat, maxHeals: int,
                     s: Lifecycle.State, e: Lifecycle.Event)
    requires InSweep(mark, states, events, used, maxHeals) && FairAt(mark, e)
    requires e.Heal? && maxHeals > 0 ==> Lifecycle.HealsIn(events) < Lifecycle.HealsIn(mark.events) + used
    ensures InSweep(mark, states + [s], events + [e], used, maxHeals)
  {
    Lifecycle.HealsInSnoc(events, e);
    forall i: nat | |mark.events| <= i < |events + [e]|
      ensures FairAt(mark, (events + [e])[i])
    {
      if i < |events| {
        assert FairAt(mark, events[i]);
      }
    }
  }
}
