/**
 * The per-workload circuit breaker: recent heals and rollbacks are counted, and
 * too many of either suspend healing for a while. Times are integers.
 */
module Breaker {
  import opened Prelude

  datatype Options = Options(window: int, maxHeals: int, maxRollbacks: int, openFor: int)

  /** `openUntil` is None while the breaker is closed. */
  datatype State = State(heals: seq<int>, rollbacks: seq<int>, openUntil: Option<int>)

  const CLEAN := State([], [], None)

  predicate OpenAt(s: State, now: int) {
    s.openUntil.Some? && now < s.openUntil.value
  }

  /** An open window that has elapsed leaves a clean slate. */
  function Settled(s: State, now: int): State {
    if s.openUntil.Some? && now >= s.openUntil.value then CLEAN else s
  }

  /** The events later than the cutoff, in order. */
  function After(ts: seq<int>, cutoff: int): seq<int> {
    if ts == [] then []
    else
      var kept, last := After(ts[..|ts| - 1], cutoff), ts[|ts| - 1];
      if last > cutoff then kept + [last] else kept
  }

  predicate TooMany(opts: Options, s: State) {
    || (opts.maxRollbacks > 0 && |s.rollbacks| >= opts.maxRollbacks)
    || (opts.maxHeals > 0 && |s.heals| >= opts.maxHeals)
  }

  /** A closed breaker's counts after one more event, with those outside the window dropped. */
  function Counted(opts: Options, s: State, now: int, rollback: bool): State {
    State(After(if rollback then s.heals else s.heals + [now], now - opts.window),
          After(if rollback then s.rollbacks + [now] else s.rollbacks, now - opts.window),
          None)
  }

  function Judged(opts: Options, s: State, now: int): (State, bool) {
    if TooMany(opts, s) then (s.(openUntil := Some(now + opts.openFor)), true) else (s, false)
  }

  /** One recorded event: the new state, and whether it tripped the breaker. */
  function Recorded(opts: Options, s: State, now: int, rollback: bool): (State, bool) {
    if OpenAt(s, now) then (s, false)
    else Judged(opts, Counted(opts, Settled(s, now), now, rollback), now)
  }

  method Prune(ts: seq<int>, cutoff: int) returns (out: seq<int>)
    ensures out == After(ts, cutoff)
  {
    out := [];
    for i := 0 to |ts|
      invariant out == After(ts[..i], cutoff)
    {
      assert ts[..i + 1][..i] == ts[..i];
      if ts[i] > cutoff {
        out := out + [ts[i]];
      }
    }
    assert ts[..|ts|] == ts;
  }

  /** A workload never heard of has a clean history. */
  function StateIn(st: map<string, State>, key: string): State {
    if key in st then st[key] else CLEAN
  }

  function LogIn(log: map<string, seq<Event>>, key: string): seq<Event> {
    if key in log then log[key] else []
  }

  predicate FollowsAt(opts: Options, st: map<string, State>, log: map<string, seq<Event>>, key: string) {
    StateIn(st, key) == Run(opts, LogIn(log, key)).0
  }

  /** Each workload's state is that of its own run. */
  ghost predicate Follows(opts: Options, st: map<string, State>, log: map<string, seq<Event>>) {
    forall key :: FollowsAt(opts, st, log, key)
  }

  lemma StepFollows(opts: Options, st: map<string, State>, st': map<string, State>, log: map<string, seq<Event>>,
                    key: string, e: Event)
    requires Follows(opts, st, log)
    requires StateIn(st', key) == Step(opts, StateIn(st, key), e)
    requires forall k | k != key :: StateIn(st', k) == StateIn(st, k)
    ensures Follows(opts, st', log[key := LogIn(log, key) + [e]])
  {
    var log' := log[key := LogIn(log, key) + [e]];
    forall k
      ensures FollowsAt(opts, st', log', k)
    {
      assert FollowsAt(opts, st, log, k);
      if k == key {
        RunSnoc(opts, LogIn(log, key), e);
      } else {
        assert LogIn(log', k) == LogIn(log, k);
      }
    }
  }

  /** Recording a heal unasked is the same step: an open breaker ignores it. */
  lemma HealIsRecorded(opts: Options, s: State, now: int)
    ensures Step(opts, s, Heal(now)) == Recorded(opts, s, now, false).0
  {
    assert Settled(Settled(s, now), now) == Settled(s, now);
  }

  class Breaker {
    const opts: Options
    var st: map<string, State>
    /** Everything each workload's breaker has been asked and told. */
    ghost var log: map<string, seq<Event>>

    constructor (opts: Options)
      ensures Valid() && this.opts == opts && st == map[] && log == map[]
    {
      this.opts := opts;
      st, log := map[], map[];
    }

    ghost function StateOf(key: string): State
      reads this
    {
      StateIn(st, key)
    }

    ghost function LogOf(key: string): seq<Event>
      reads this
    {
      LogIn(log, key)
    }

    ghost predicate Valid()
      reads this
    {
      Follows(opts, st, log)
    }

    ghost method Log(was: map<string, State>, key: string, e: Event)
      requires Follows(opts, was, log)
      requires StateOf(key) == Step(opts, StateIn(was, key), e)
      requires forall k | k != key :: StateOf(k) == StateIn(was, k)
      modifies this`log
      ensures Valid() && LogOf(key) == old(LogOf(key)) + [e]
      ensures forall k | k != key :: LogIn(log, k) == LogIn(old(log), k)
    {
      StepFollows(opts, was, st, log, key, e);
      log := log[key := LogOf(key) + [e]];
    }

    method Allowed(key: string, now: int) returns (ok: bool)
      requires Valid()
      modifies this`st, this`log
      ensures Valid() && (ok <==> !OpenAt(old(StateOf(key)), now))
      ensures InOrder(old(LogOf(key)), now) ==> (ok <==> !Suspended(opts, old(LogOf(key)), now))
      ensures LogOf(key) == old(LogOf(key)) + [Ask(now)]
      ensures forall k | k != key :: LogIn(log, k) == LogIn(old(log), k)
    {
      ghost var was := st;
      assert FollowsAt(opts, st, log, key);
      if InOrder(LogOf(key), now) {
        OpenIff(opts, LogOf(key), now);
      }
      if key !in st || st[key].openUntil.None? {
        ok := true;
      } else if now < st[key].openUntil.value {
        ok := false;
      } else {
        st := st - {key};
        ok := true;
      }
      Log(was, key, Ask(now));
    }

    method OnHeal(key: string, now: int) returns (tripped: bool)
      requires Valid()
      modifies this`st, this`log
      ensures Valid() && tripped == Recorded(opts, old(StateOf(key)), now, false).1
      ensures LogOf(key) == old(LogOf(key)) + [Heal(now)]
      ensures InOrder(old(LogOf(key)), now) ==> (tripped <==> Trips(opts, LogOf(key), |old(LogOf(key))|))
      ensures forall k | k != key :: LogIn(log, k) == LogIn(old(log), k)
    {
      ghost var was := st;
      assert FollowsAt(opts, st, log, key);
      NextTripsIff(opts, LogOf(key), Heal(now));
      tripped := Record(key, now, false);
      HealIsRecorded(opts, StateIn(was, key), now);
      Log(was, key, Heal(now));
    }

    method OnRollback(key: string, now: int) returns (tripped: bool)
      requires Valid()
      modifies this`st, this`log
      ensures Valid() && tripped == Recorded(opts, old(StateOf(key)), now, true).1
      ensures LogOf(key) == old(LogOf(key)) + [Rollback(now)]
      ensures InOrder(old(LogOf(key)), now) ==> (tripped <==> Trips(opts, LogOf(key), |old(LogOf(key))|))
      ensures forall k | k != key :: LogIn(log, k) == LogIn(old(log), k)
    {
      ghost var was := st;
      assert FollowsAt(opts, st, log, key);
      NextTripsIff(opts, LogOf(key), Rollback(now));
      tripped := Record(key, now, true);
      Log(was, key, Rollback(now));
    }

    method Record(key: string, now: int, rollback: bool) returns (tripped: bool)
      modifies this`st
      ensures (StateOf(key), tripped) == Recorded(opts, old(StateOf(key)), now, rollback)
      ensures forall k | k != key :: StateOf(k) == old(StateOf(k))
    {
      if key !in st {
        st := st[key := CLEAN];
      }
      var s := st[key];
      if s.openUntil.Some? {
        if now < s.openUntil.value {
          return false;
        }
        s := CLEAN;
      }
      s := Count(s, now, rollback);
      tripped := TooMany(opts, s);
      if tripped {
        s := s.(openUntil := Some(now + opts.openFor));
      }
      st := st[key := s];
    }

    method Count(s: State, now: int, rollback: bool) returns (counted: State)
      ensures counted == Counted(opts, s, now, rollback)
    {
      var heals, rollbacks := s.heals, s.rollbacks;
      if rollback {
        rollbacks := rollbacks + [now];
      } else {
        heals := heals + [now];
      }
      heals := Prune(heals, now - opts.window);
      rollbacks := Prune(rollbacks, now - opts.window);
      counted := State(heals, rollbacks, None);
    }

    /** How many workloads are suspended. */
    method OpenCount(now: int) returns (n: nat)
      ensures n == |set k | k in st && OpenAt(st[k], now)|
    {
      n := 0;
      var left := st.Keys;
      ghost var counted: set<string> := {};
      while left != {}
        invariant left <= st.Keys
        invariant counted == set k | k in st && k !in left && OpenAt(st[k], now)
        invariant n == |counted|
      {
        var k :| k in left;
        left := left - {k};
        if OpenAt(st[k], now) {
          counted := counted + {k};
          n := n + 1;
        }
      }
      assert counted == set k | k in st && OpenAt(st[k], now);
    }
  }

  // ----- Runs of one workload -----

  /** A heal is attempted, a heal is rolled back, or permission is merely asked. */
  datatype Event = Heal(at: int) | Rollback(at: int) | Ask(at: int)

  /** A guarded heal happens only if Allowed says so. */
  predicate Happens(s: State, e: Event) {
    e.Heal? && !OpenAt(s, e.at)
  }

  function Step(opts: Options, s: State, e: Event): State {
    match e
    case Ask(now) => Settled(s, now)
    case Rollback(now) => Recorded(opts, s, now, true).0
    case Heal(now) => if OpenAt(s, now) then s else Recorded(opts, Settled(s, now), now, false).0
  }

  /** The breaker's state after a run, and the times at which heals really happened. */
  function Run(opts: Options, events: seq<Event>): (State, seq<int>) {
    if events == [] then (CLEAN, [])
    else
      var (s, healed) := Run(opts, events[..|events| - 1]);
      var e := events[|events| - 1];
      (Step(opts, s, e), if Happens(s, e) then healed + [e.at] else healed)
  }

  predicate NonDecreasing(events: seq<Event>) {
    forall i, j | 0 <= i < j < |events| :: events[i].at <= events[j].at
  }

  // ----- What a run's events alone say -----

  /** The trip at event t, if there has been one, still suspends healing. */
  predicate SuspendedBy(opts: Options, events: seq<Event>, t: int, now: int)
    requires -1 <= t < |events|
  {
    t >= 0 && now < events[t].at + opts.openFor
  }

  /**
   * Of the first n events the heals, or the rollbacks, later than the cutoff and since
   * the clean slate: after the trip at t and the open period it began.
   */
  function Recent(opts: Options, events: seq<Event>, t: int, n: nat, cutoff: int, rollback: bool): set<nat>
    requires -1 <= t < |events| && n <= |events|
  {
    set j: nat | j < n && (if rollback then events[j].Rollback? else events[j].Heal?) && events[j].at > cutoff
      && (t >= 0 ==> j > t && events[j].at >= events[t].at + opts.openFor)
  }

  /** Of the first n events the last that tripped the breaker, or -1. */
  function LastTrip(opts: Options, events: seq<Event>, n: nat): (t: int)
    requires n <= |events|
    ensures -1 <= t < n
    decreases n, 0
  {
    if n == 0 then -1 else if Trips(opts, events, n - 1) then n - 1 else LastTrip(opts, events, n - 1)
  }

  /**
   * Event n trips the breaker: it is a heal or a rollback, healing is not suspended, and
   * the heals, or the rollbacks, within the window and since the last clean slate, this
   * one included, reach their threshold.
   */
  predicate Trips(opts: Options, events: seq<Event>, n: nat)
    requires n < |events|
    decreases n, 1
  {
    var t, now := LastTrip(opts, events, n), events[n].at;
    && !events[n].Ask? && !SuspendedBy(opts, events, t, now)
    && (|| (opts.maxHeals > 0 && |Recent(opts, events, t, n + 1, now - opts.window, false)| >= opts.maxHeals)
        || (opts.maxRollbacks > 0 && |Recent(opts, events, t, n + 1, now - opts.window, true)| >= opts.maxRollbacks))
  }

  /** After these events the breaker is open. */
  predicate Suspended(opts: Options, events: seq<Event>, now: int) {
    SuspendedBy(opts, events, LastTrip(opts, events, |events|), now)
  }

  lemma {:induction false} AfterAfter(ts: seq<int>, cutoff: int, later: int)
    requires cutoff <= later
    ensures After(After(ts, cutoff), later) == After(ts, later)
  {
    if ts != [] {
      var front := ts[..|ts| - 1];
      AfterAfter(front, cutoff, later);
      assert (After(front, cutoff) + [ts[|ts| - 1]])[..|After(front, cutoff)|] == After(front, cutoff);
    }
  }

  lemma AfterSnoc(ts: seq<int>, t: int, cutoff: int)
    ensures After(ts + [t], cutoff) == if t > cutoff then After(ts, cutoff) + [t] else After(ts, cutoff)
  {
    assert (ts + [t])[..|ts|] == ts;
  }

  predicate TalliesAt(opts: Options, events: seq<Event>, t: int, n: nat, s: State, cutoff: int)
    requires -1 <= t < |events| && n <= |events|
  {
    && |After(s.heals, cutoff)| == |Recent(opts, events, t, n, cutoff, false)|
    && |After(s.rollbacks, cutoff)| == |Recent(opts, events, t, n, cutoff, true)|
  }

  /** From the window's start on the breaker remembers as many heals and rollbacks as there were. */
  ghost predicate Tallies(opts: Options, events: seq<Event>, t: int, n: nat, s: State, now: int)
    requires -1 <= t < |events| && n <= |events|
  {
    forall cutoff | cutoff >= now - opts.window :: TalliesAt(opts, events, t, n, s, cutoff)
  }

  /** The breaker's state is what the events say it is. */
  ghost predicate Mirrors(opts: Options, events: seq<Event>, n: nat, s: State)
    requires n <= |events|
  {
    var t := LastTrip(opts, events, n);
    match s.openUntil
    case Some(until) =>
      t >= 0 && until == events[t].at + opts.openFor && forall j | t < j < n :: events[j].at < until
    case None =>
      if n == 0 then s == CLEAN
      else
        && !SuspendedBy(opts, events, t, events[n - 1].at)
        && Tallies(opts, events, t, n, s, events[n - 1].at)
  }

  lemma NoneRecent(opts: Options, events: seq<Event>, t: int, n: nat, cutoff: int, rollback: bool)
    requires -1 <= t < |events| && n <= |events|
    requires forall j | 0 <= j < n :: t >= 0 && (j <= t || events[j].at < events[t].at + opts.openFor)
    ensures Recent(opts, events, t, n, cutoff, rollback) == {}
  {
  }

  /** At the next event, when healing is not suspended, the settled state still tallies. */
  lemma SettledTallies(opts: Options, events: seq<Event>, n: nat, s: State)
    requires NonDecreasing(events) && n < |events| && Mirrors(opts, events, n, s) && !OpenAt(s, events[n].at)
    ensures !SuspendedBy(opts, events, LastTrip(opts, events, n), events[n].at)
    ensures Tallies(opts, events, LastTrip(opts, events, n), n, Settled(s, events[n].at), events[n].at)
  {
    var t, now := LastTrip(opts, events, n), events[n].at;
    forall cutoff | cutoff >= now - opts.window
      ensures TalliesAt(opts, events, t, n, Settled(s, now), cutoff)
    {
      if s.openUntil.Some? || n == 0 {
        NoneRecent(opts, events, t, n, cutoff, false);
        NoneRecent(opts, events, t, n, cutoff, true);
      } else {
        assert events[n - 1].at <= now;
        assert TalliesAt(opts, events, t, n, s, cutoff);
      }
    }
  }

  lemma RecentSnoc(opts: Options, events: seq<Event>, t: int, n: nat, cutoff: int, rollback: bool)
    requires -1 <= t < n < |events| && !SuspendedBy(opts, events, t, events[n].at)
    ensures var before := Recent(opts, events, t, n, cutoff, rollback);
      var counts := (if rollback then events[n].Rollback? else events[n].Heal?) && events[n].at > cutoff;
      && Recent(opts, events, t, n + 1, cutoff, rollback) == (if counts then before + {n} else before)
      && |Recent(opts, events, t, n + 1, cutoff, rollback)| == |before| + (if counts then 1 else 0)
  {
    var before, after := Recent(opts, events, t, n, cutoff, rollback), Recent(opts, events, t, n + 1, cutoff, rollback);
    var counts := (if rollback then events[n].Rollback? else events[n].Heal?) && events[n].at > cutoff;
    assert n !in before;
    assert after == if counts then before + {n} else before;
  }

  /** Counting the event keeps the tally. */
  lemma CountedTallies(opts: Options, events: seq<Event>, t: int, n: nat, s: State)
    requires -1 <= t < n < |events| && !events[n].Ask? && !SuspendedBy(opts, events, t, events[n].at)
    requires Tallies(opts, events, t, n, s, events[n].at)
    ensures Tallies(opts, events, t, n + 1, Counted(opts, s, events[n].at, events[n].Rollback?), events[n].at)
  {
    hide After, Recent;
    var now := events[n].at;
    var heals := if events[n].Rollback? then s.heals else s.heals + [now];
    var rollbacks := if events[n].Rollback? then s.rollbacks + [now] else s.rollbacks;
    var counted, m := Counted(opts, s, now, events[n].Rollback?), n + 1;
    forall cutoff | cutoff >= now - opts.window
      ensures TalliesAt(opts, events, t, m, counted, cutoff)
    {
      assert TalliesAt(opts, events, t, n, s, cutoff);
      AfterAfter(heals, now - opts.window, cutoff);
      AfterAfter(rollbacks, now - opts.window, cutoff);
      AfterSnoc(s.heals, now, cutoff);
      AfterSnoc(s.rollbacks, now, cutoff);
      RecentSnoc(opts, events, t, n, cutoff, false);
      RecentSnoc(opts, events, t, n, cutoff, true);
    }
  }

  /** The events tripped the breaker at the n-th: that is what recording it said. */
  predicate Tripped(opts: Options, events: seq<Event>, n: nat)
    requires n < |events|
  {
    !events[n].Ask? && Recorded(opts, Run(opts, events[..n]).0, events[n].at, events[n].Rollback?).1
  }

  /** Asking settles an elapsed open period and counts nothing. */
  lemma AskedTallies(opts: Options, events: seq<Event>, t: int, n: nat, s: State)
    requires -1 <= t < n < |events| && events[n].Ask? && !SuspendedBy(opts, events, t, events[n].at)
    requires Tallies(opts, events, t, n, s, events[n].at)
    ensures Tallies(opts, events, t, n + 1, s, events[n].at)
  {
    hide After, Recent;
    var m := n + 1;
    forall cutoff | cutoff >= events[n].at - opts.window
      ensures TalliesAt(opts, events, t, m, s, cutoff)
    {
      assert TalliesAt(opts, events, t, n, s, cutoff);
      RecentSnoc(opts, events, t, n, cutoff, false);
      RecentSnoc(opts, events, t, n, cutoff, true);
    }
  }

  /** What is counted reaches a threshold exactly when the event trips the breaker. */
  lemma CountedTrips(opts: Options, events: seq<Event>, n: nat, s: State)
    requires n < |events| && !events[n].Ask?
    requires !SuspendedBy(opts, events, LastTrip(opts, events, n), events[n].at)
    requires Tallies(opts, events, LastTrip(opts, events, n), n + 1,
                     Counted(opts, s, events[n].at, events[n].Rollback?), events[n].at)
    ensures TooMany(opts, Counted(opts, s, events[n].at, events[n].Rollback?)) <==> Trips(opts, events, n)
  {
    hide After, Recent;
    var e := events[n];
    assert TalliesAt(opts, events, LastTrip(opts, events, n), n + 1, Counted(opts, s, e.at, e.Rollback?),
                     e.at - opts.window);
    AfterAfter(if e.Rollback? then s.heals else s.heals + [e.at], e.at - opts.window, e.at - opts.window);
    AfterAfter(if e.Rollback? then s.rollbacks + [e.at] else s.rollbacks, e.at - opts.window, e.at - opts.window);
  }

  lemma StepMirrors(opts: Options, events: seq<Event>, n: nat, s: State)
    requires NonDecreasing(events) && n < |events| && Mirrors(opts, events, n, s)
    ensures Mirrors(opts, events, n + 1, Step(opts, s, events[n]))
    ensures Trips(opts, events, n) <==> !events[n].Ask? && Recorded(opts, s, events[n].at, events[n].Rollback?).1
  {
    hide After, Recent, Tallies, Counted, TooMany;
    var t, e := LastTrip(opts, events, n), events[n];
    if OpenAt(s, e.at) {
      assert Step(opts, s, e) == s && LastTrip(opts, events, n + 1) == t;
      assert forall j | t < j < n + 1 :: j < n || events[j] == e;
    } else {
      SettledTallies(opts, events, n, s);
      var settled := Settled(s, e.at);
      if e.Ask? {
        AskedTallies(opts, events, t, n, settled);
        assert LastTrip(opts, events, n + 1) == t;
      } else {
        CountedTallies(opts, events, t, n, settled);
        CountedTrips(opts, events, n, settled);
        ClosedWhenCounted(opts, settled, e.at, e.Rollback?);
      }
    }
  }

  lemma ClosedWhenCounted(opts: Options, s: State, now: int, rollback: bool)
    ensures Counted(opts, s, now, rollback).openUntil.None?
  {
  }

  lemma {:induction false} RunMirrors(opts: Options, events: seq<Event>, n: nat)
    requires NonDecreasing(events) && n <= |events|
    ensures Mirrors(opts, events, n, Run(opts, events[..n]).0)
  {
    hide Mirrors, Step, Recorded, LastTrip, Trips;
    if n == 0 {
      StartMirrors(opts, events);
    } else {
      RunMirrors(opts, events, n - 1);
      StepMirrors(opts, events, n - 1, Run(opts, events[..n - 1]).0);
      RunSnoc(opts, events[..n - 1], events[n - 1]);
      assert events[..n] == events[..n - 1] + [events[n - 1]];
    }
  }

  lemma StartMirrors(opts: Options, events: seq<Event>)
    ensures Mirrors(opts, events, 0, CLEAN)
  {
  }

  /** In every run the breaker trips exactly when the run's events say so. */
  lemma TripsIff(opts: Options, events: seq<Event>, n: nat)
    requires NonDecreasing(events) && n < |events|
    ensures Tripped(opts, events, n) <==> Trips(opts, events, n)
  {
    hide Mirrors, Step, Recorded, LastTrip, Trips;
    RunMirrors(opts, events, n);
    StepMirrors(opts, events, n, Run(opts, events[..n]).0);
  }

  /** The event comes no earlier than those already in the log, which are in order. */
  predicate InOrder(log: seq<Event>, now: int) {
    NonDecreasing(log) && (log != [] ==> log[|log| - 1].at <= now)
  }

  lemma NextTripsIff(opts: Options, log: seq<Event>, e: Event)
    requires !e.Ask?
    ensures InOrder(log, e.at) ==>
      (Recorded(opts, Run(opts, log).0, e.at, e.Rollback?).1 <==> Trips(opts, log + [e], |log|))
  {
    if InOrder(log, e.at) {
      var longer := log + [e];
      assert longer[..|log|] == log;
      assert NonDecreasing(longer) by {
        assert forall i | 0 <= i < |log| :: longer[i] == log[i] && log[i].at <= log[|log| - 1].at;
      }
      TripsIff(opts, longer, |log|);
    }
  }

  /** and is open exactly while the last trip's open period lasts. */
  lemma OpenIff(opts: Options, events: seq<Event>, now: int)
    requires NonDecreasing(events) && (events != [] ==> events[|events| - 1].at <= now)
    ensures OpenAt(Run(opts, events).0, now) <==> Suspended(opts, events, now)
  {
    assert events[..|events|] == events;
    RunMirrors(opts, events, |events|);
  }

  // ----- The counts -----

  predicate Sorted(ts: seq<int>) {
    forall i, j | 0 <= i < j < |ts| :: ts[i] <= ts[j]
  }

  /** Pruning a sorted history drops a prefix of it. */
  lemma {:induction false} AfterKeepsSuffix(ts: seq<int>, cutoff: int) returns (p: nat)
    requires Sorted(ts)
    ensures p <= |ts| && After(ts, cutoff) == ts[p..]
    ensures forall i | 0 <= i < p :: ts[i] <= cutoff
  {
    if ts == [] {
      p := 0;
    } else {
      var before, last := ts[..|ts| - 1], ts[|ts| - 1];
      p := AfterKeepsSuffix(before, cutoff);
      if last > cutoff {
        assert ts[p..] == before[p..] + [last];
      } else {
        assert forall i | 0 <= i < |ts| :: ts[i] <= last;
        AfterDropsAll(before, cutoff);
        p := |ts|;
      }
    }
  }

  lemma {:induction false} AfterDropsAll(ts: seq<int>, cutoff: int)
    requires forall i | 0 <= i < |ts| :: ts[i] <= cutoff
    ensures After(ts, cutoff) == []
  {
    if ts != [] {
      AfterDropsAll(ts[..|ts| - 1], cutoff);
    }
  }

  lemma {:induction false} AfterKeepsAll(ts: seq<int>, cutoff: int)
    requires forall i | 0 <= i < |ts| :: ts[i] > cutoff
    ensures After(ts, cutoff) == ts
  {
    if ts != [] {
      AfterKeepsAll(ts[..|ts| - 1], cutoff);
    }
  }

  /** While the breaker is closed neither count has reached its threshold. */
  predicate BelowThresholds(opts: Options, s: State) {
    s.openUntil.None? ==> !TooMany(opts, s)
  }

  lemma {:induction false} ClosedMeansBelowThresholds(opts: Options, events: seq<Event>)
    ensures BelowThresholds(opts, Run(opts, events).0)
  {
    if events != [] {
      ClosedMeansBelowThresholds(opts, events[..|events| - 1]);
    }
  }

  /** A trip is reported exactly when a breaker that was not open becomes open for a further OpenFor. */
  lemma TripsAreTransitions(opts: Options, s: State, now: int, rollback: bool)
    requires BelowThresholds(opts, s)
    ensures var (after, tripped) := Recorded(opts, s, now, rollback);
      && (tripped <==> !OpenAt(s, now) && after.openUntil.Some?)
      && (tripped ==> after.openUntil == Some(now + opts.openFor))
      && (OpenAt(s, now) ==> after == s)
  {
  }

  predicate TailAt(recent: seq<int>, all: seq<int>, i: nat)
    requires i < |recent| <= |all|
  {
    recent[i] == all[|all| - |recent| + i]
  }

  /** The last events of a history. */
  predicate Tail(recent: seq<int>, all: seq<int>) {
    |recent| <= |all| && forall i: nat | i < |recent| :: TailAt(recent, all, i)
  }

  /** All but the last `kept` heals are at least a window old by `now`. */
  predicate Expired(opts: Options, healed: seq<int>, kept: nat, now: int) {
    forall i | 0 <= i < |healed| - kept :: healed[i] + opts.window <= now
  }

  /**
   * The heals a closed breaker remembers are the last ones that happened, and each
   * forgotten heal is a full window old. By the end of an open period every heal is.
   */
  predicate Remembers(opts: Options, s: State, healed: seq<int>) {
    match s.openUntil
    case Some(until) => Expired(opts, healed, 0, until)
    case None => Tail(s.heals, healed)
  }

  ghost predicate Inv(opts: Options, s: State, healed: seq<int>, now: int) {
    && Sorted(healed) && (healed != [] ==> healed[|healed| - 1] <= now)
    && Remembers(opts, s, healed)
    && (s.openUntil.None? ==> Expired(opts, healed, |s.heals|, now))
  }

  predicate SpacedAt(opts: Options, healed: seq<int>, i: nat)
    requires opts.maxHeals > 0 && i < |healed|
  {
    i >= opts.maxHeals ==> healed[i - opts.maxHeals] + opts.window <= healed[i]
  }

  /** Every heal happens at least a window after the one MaxHeals before it. */
  predicate Spaced(opts: Options, healed: seq<int>)
    requires opts.maxHeals > 0
  {
    forall i: nat | i < |healed| :: SpacedAt(opts, healed, i)
  }

  predicate WellConfigured(opts: Options) {
    opts.window > 0 && opts.maxHeals > 0 && opts.openFor >= opts.window
  }

  lemma SettledInv(opts: Options, s: State, healed: seq<int>, before: int, now: int)
    requires Inv(opts, s, healed, before) && before <= now
    ensures Inv(opts, Settled(s, now), healed, now)
  {
  }

  lemma TailDrop(recent: seq<int>, all: seq<int>, p: nat)
    requires Tail(recent, all) && p <= |recent|
    ensures Tail(recent[p..], all)
  {
    forall i: nat | i < |recent[p..]|
      ensures TailAt(recent[p..], all, i)
    {
      assert TailAt(recent, all, p + i);
    }
  }

  lemma TailSnoc(recent: seq<int>, all: seq<int>, t: int)
    requires Tail(recent, all)
    ensures Tail(recent + [t], all + [t])
  {
    forall i: nat | i < |recent + [t]|
      ensures TailAt(recent + [t], all + [t], i)
    {
      if i < |recent| {
        assert TailAt(recent, all, i);
      }
    }
  }

  lemma TailSorted(recent: seq<int>, all: seq<int>)
    requires Tail(recent, all) && Sorted(all)
    ensures Sorted(recent)
  {
    forall i: nat, j: nat | i < j < |recent|
      ensures recent[i] <= recent[j]
    {
      assert TailAt(recent, all, i) && TailAt(recent, all, j);
    }
  }

  /** Pruning the remembered tail of a sorted history leaves a tail, and drops only expired heals. */
  lemma PrunedTail(opts: Options, recent: seq<int>, all: seq<int>, now: int)
    requires Tail(recent, all) && Sorted(all) && Expired(opts, all, |recent|, now)
    ensures var kept := After(recent, now - opts.window);
      Tail(kept, all) && Expired(opts, all, |kept|, now)
  {
    TailSorted(recent, all);
    var p := AfterKeepsSuffix(recent, now - opts.window);
    TailDrop(recent, all, p);
    var forgotten := |all| - |recent|;
    forall i | 0 <= i < forgotten + p
      ensures all[i] + opts.window <= now
    {
      if i >= forgotten {
        assert TailAt(recent, all, i - forgotten);
      }
    }
  }

  lemma SortedSnoc(ts: seq<int>, t: int)
    requires Sorted(ts) && (ts != [] ==> ts[|ts| - 1] <= t)
    ensures Sorted(ts + [t])
  {
    forall i, j | 0 <= i < j < |ts + [t]|
      ensures (ts + [t])[i] <= (ts + [t])[j]
    {
      assert ts[i] <= ts[|ts| - 1];
    }
  }

  lemma ExpiredSnoc(opts: Options, healed: seq<int>, kept: nat, now: int)
    requires Expired(opts, healed, kept, now)
    ensures Expired(opts, healed + [now], kept + 1, now)
  {
  }

  lemma OneMoreHeal(opts: Options, s: State, healed: seq<int>, now: int)
    requires s.openUntil.None? && Inv(opts, s, healed, now)
    ensures Inv(opts, s.(heals := s.heals + [now]), healed + [now], now)
  {
    SortedSnoc(healed, now);
    ExpiredSnoc(opts, healed, |s.heals|, now);
    TailSnoc(s.heals, healed, now);
  }

  /** Counting one more event keeps the remembered heals a suffix of those that happened. */
  lemma CountedRemembers(opts: Options, s: State, healed: seq<int>, now: int, rollback: bool)
    requires WellConfigured(opts) && s.openUntil.None? && Inv(opts, s, healed, now)
    ensures Inv(opts, Counted(opts, s, now, rollback), if rollback then healed else healed + [now], now)
  {
    if rollback {
      PrunedTail(opts, s.heals, healed, now);
    } else {
      OneMoreHeal(opts, s, healed, now);
      PrunedTail(opts, s.heals + [now], healed + [now], now);
    }
  }

  lemma HealKeepsSpacing(opts: Options, s: State, healed: seq<int>, now: int)
    requires WellConfigured(opts) && s.openUntil.None? && BelowThresholds(opts, s)
    requires Inv(opts, s, healed, now) && Spaced(opts, healed)
    ensures Spaced(opts, healed + [now])
  {
    assert |s.heals| < opts.maxHeals;
    var all := healed + [now];
    forall i: nat | i < |all|
      ensures SpacedAt(opts, all, i)
    {
      if i < |healed| {
        assert SpacedAt(opts, healed, i);
      }
    }
  }

  /** A trip opens for at least a window, so by its end every heal so far has expired. */
  lemma JudgedInv(opts: Options, s: State, healed: seq<int>, now: int)
    requires WellConfigured(opts) && s.openUntil.None? && Inv(opts, s, healed, now)
    ensures Inv(opts, Judged(opts, s, now).0, healed, now)
  {
    forall i | 0 <= i < |healed|
      ensures healed[i] + opts.window <= now + opts.openFor
    {
      assert healed[i] <= healed[|healed| - 1];
    }
  }

  lemma RecordedInv(opts: Options, s: State, healed: seq<int>, now: int, rollback: bool)
    requires WellConfigured(opts) && s.openUntil.None? && BelowThresholds(opts, s)
    requires Inv(opts, s, healed, now) && Spaced(opts, healed)
    ensures var healed' := if rollback then healed else healed + [now];
      Inv(opts, Recorded(opts, s, now, rollback).0, healed', now) && Spaced(opts, healed')
  {
    CountedRemembers(opts, s, healed, now, rollback);
    JudgedInv(opts, Counted(opts, s, now, rollback), if rollback then healed else healed + [now], now);
    if !rollback {
      HealKeepsSpacing(opts, s, healed, now);
    }
  }

  lemma StepInv(opts: Options, s: State, healed: seq<int>, before: int, e: Event)
    requires WellConfigured(opts) && BelowThresholds(opts, s)
    requires Inv(opts, s, healed, before) && before <= e.at && Spaced(opts, healed)
    ensures var healed' := if Happens(s, e) then healed + [e.at] else healed;
      Inv(opts, Step(opts, s, e), healed', e.at) && Spaced(opts, healed')
  {
    SettledInv(opts, s, healed, before, e.at);
    if !OpenAt(s, e.at) && !e.Ask? {
      RecordedInv(opts, Settled(s, e.at), healed, e.at, e.Rollback?);
    }
  }

  lemma {:induction false} RunsAreSpaced(opts: Options, events: seq<Event>)
    requires WellConfigured(opts) && NonDecreasing(events)
    ensures var (s, healed) := Run(opts, events);
      && Spaced(opts, healed) && Sorted(healed)
      && (events != [] ==> Inv(opts, s, healed, events[|events| - 1].at))
  {
    if events != [] {
      var before, e := events[..|events| - 1], events[|events| - 1];
      RunsAreSpaced(opts, before);
      ClosedMeansBelowThresholds(opts, before);
      var (s, healed) := Run(opts, before);
      StepInv(opts, s, healed, if before == [] then e.at else before[|before| - 1].at, e);
    }
  }

  // ----- No window holds more than MaxHeals heals -----

  /** The heals in the half-open interval of length `window` from x on. */
  function HealsFrom(healed: seq<int>, x: int, window: int): set<nat> {
    set i: nat | i < |healed| && x <= healed[i] < x + window
  }

  lemma {:induction false} SetOfNaturalsSize(s: set<nat>, lo: nat, hi: nat)
    requires forall i | i in s :: lo <= i < hi
    ensures |s| <= if lo <= hi then hi - lo else 0
    decreases hi
  {
    if s != {} {
      assert lo < hi by {
        var i :| i in s;
      }
      if hi - 1 in s {
        SetOfNaturalsSize(s - {hi - 1}, lo, hi - 1);
      } else {
        SetOfNaturalsSize(s, lo, hi - 1);
      }
    }
  }

  lemma SpacedMeansFewPerWindow(opts: Options, healed: seq<int>, x: int)
    requires opts.maxHeals > 0 && opts.window > 0 && Spaced(opts, healed)
    requires Sorted(healed)
    ensures |HealsFrom(healed, x, opts.window)| <= opts.maxHeals
  {
    var inside := HealsFrom(healed, x, opts.window);
    if inside != {} {
      var first := Least(inside);
      forall i | first + opts.maxHeals <= i < |healed|
        ensures healed[first] + opts.window <= healed[i]
      {
        assert SpacedAt(opts, healed, i);
        assert healed[first] <= healed[i - opts.maxHeals];
      }
      SetOfNaturalsSize(inside, first, first + opts.maxHeals);
    }
  }

  lemma {:induction false} Least(s: set<nat>) returns (m: nat)
    requires s != {}
    ensures m in s && forall i | i in s :: m <= i
    decreases s
  {
    var some :| some in s;
    var smaller := set i | i in s && i < some;
    if smaller == {} {
      m := some;
      assert forall i | i in s && i < m :: i in smaller;
    } else {
      assert some !in smaller;
      m := Least(smaller);
      assert forall i | i in s && i < some :: i in smaller;
    }
  }

  ghost predicate Bounded(opts: Options, events: seq<Event>) {
    forall x :: |HealsFrom(Run(opts, events).1, x, opts.window)| <= opts.maxHeals
  }

  lemma WellConfiguredIsBounded(opts: Options, events: seq<Event>)
    requires WellConfigured(opts) && NonDecreasing(events)
    ensures Bounded(opts, events)
  {
    RunsAreSpaced(opts, events);
    forall x {
      SpacedMeansFewPerWindow(opts, Run(opts, events).1, x);
    }
  }

  // ----- and the open period must be as long as the window for that -----

  function Burst(n: nat): seq<Event> {
    seq(n, i => Heal(0))
  }

  function Zeros(n: nat): seq<int> {
    seq(n, i => 0)
  }

  lemma RunSnoc(opts: Options, events: seq<Event>, e: Event)
    ensures var (s, healed) := Run(opts, events);
      Run(opts, events + [e]) == (Step(opts, s, e), if Happens(s, e) then healed + [e.at] else healed)
  {
    assert (events + [e])[..|events|] == events;
  }

  lemma BurstSnoc(n: nat)
    ensures Burst(n + 1) == Burst(n) + [Heal(0)] && Zeros(n + 1) == Zeros(n) + [0]
  {
  }

  lemma CountedBurst(opts: Options, n: nat)
    requires opts.window > 0 && n > 0
    ensures Counted(opts, State(Zeros(n - 1), [], None), 0, false) == State(Zeros(n), [], None)
  {
    assert Zeros(n - 1) + [0] == Zeros(n);
    AfterKeepsAll(Zeros(n), 0 - opts.window);
  }

  lemma {:induction false} BurstFillsTheWindow(opts: Options, n: nat)
    requires opts.window > 0 && opts.maxHeals > 0 && n <= opts.maxHeals
    ensures Run(opts, Burst(n))
         == (State(Zeros(n), [], if n == opts.maxHeals then Some(opts.openFor) else None), Zeros(n))
  {
    hide After;
    if n == 0 {
      assert Burst(0) == [] && Zeros(0) == [];
    } else {
      BurstFillsTheWindow(opts, n - 1);
      RunSnoc(opts, Burst(n - 1), Heal(0));
      BurstSnoc(n - 1);
      CountedBurst(opts, n);
    }
  }

  /** One heal more than allowed, as soon as a short open period has passed. */
  lemma ShortOpenPeriodBreaksTheBound(opts: Options)
    requires opts.window > 0 && opts.maxHeals > 0 && opts.openFor < opts.window
    ensures exists events :: NonDecreasing(events) && !Bounded(opts, events)
  {
    var at := Max(0, opts.openFor);
    var events := Burst(opts.maxHeals) + [Heal(at)];
    BurstAndOneMore(opts, at);
    OverfullWindow(opts, Run(opts, events).1);
    assert NonDecreasing(events) && !Bounded(opts, events);
  }

  lemma BurstAndOneMore(opts: Options, at: int)
    requires opts.window > 0 && opts.maxHeals > 0 && at >= 0 && at >= opts.openFor
    ensures var events := Burst(opts.maxHeals) + [Heal(at)];
      NonDecreasing(events) && Run(opts, events).1 == Zeros(opts.maxHeals) + [at]
  {
    RunSnoc(opts, Burst(opts.maxHeals), Heal(at));
    BurstFillsTheWindow(opts, opts.maxHeals);
    var events := Burst(opts.maxHeals) + [Heal(at)];
    assert forall i | 0 <= i < opts.maxHeals :: events[i] == Heal(0);
  }

  lemma OverfullWindow(opts: Options, healed: seq<int>)
    requires opts.maxHeals > 0 && |healed| == opts.maxHeals + 1
    requires forall i | 0 <= i < |healed| :: 0 <= healed[i] < opts.window
    ensures |HealsFrom(healed, 0, opts.window)| > opts.maxHeals
  {
    FirstNaturalsSize(|healed|);
    assert HealsFrom(healed, 0, opts.window) == FirstNaturals(|healed|);
  }

  function FirstNaturals(n: nat): set<nat> {
    if n == 0 then {} else FirstNaturals(n - 1) + {n - 1}
  }

  lemma {:induction false} FirstNaturalsSize(n: nat)
    ensures forall i: nat :: i in FirstNaturals(n) <==> i < n
    ensures |FirstNaturals(n)| == n
  {
    if n > 0 {
      FirstNaturalsSize(n - 1);
      assert n - 1 !in FirstNaturals(n - 1);
    }
  }

  /**
   * In every run in which heals wait for permission, no half-open window holds more
   * than MaxHeals heals, whatever rollbacks interleave: exactly when the breaker
   * stays open for at least as long as it counts.
   */
  lemma BoundHoldsIffOpenAsLongAsWindow(opts: Options)
    requires opts.window > 0 && opts.maxHeals > 0
    ensures (forall events | NonDecreasing(events) :: Bounded(opts, events)) <==> opts.openFor >= opts.window
  {
    if opts.openFor >= opts.window {
      forall events | NonDecreasing(events)
        ensures Bounded(opts, events)
      {
        WellConfiguredIsBounded(opts, events);
      }
    } else {
      ShortOpenPeriodBreaksTheBound(opts);
    }
  }

  // ----- When the breaker can open at all -----

  function RollbackBurst(n: nat): seq<Event> {
    seq(n, i => Rollback(0))
  }

  lemma CountedRollbackBurst(opts: Options, n: nat)
    requires opts.window > 0 && n > 0
    ensures Counted(opts, State([], Zeros(n - 1), None), 0, true) == State([], Zeros(n), None)
  {
    assert Zeros(n - 1) + [0] == Zeros(n);
    AfterKeepsAll(Zeros(n), 0 - opts.window);
  }

  lemma {:induction false} RollbackBurstTrips(opts: Options, n: nat)
    requires opts.window > 0 && opts.maxRollbacks > 0 && n <= opts.maxRollbacks
    ensures Run(opts, RollbackBurst(n)).0
         == State([], Zeros(n), if n == opts.maxRollbacks then Some(opts.openFor) else None)
  {
    hide After;
    if n == 0 {
      assert RollbackBurst(0) == [] && Zeros(0) == [];
    } else {
      RollbackBurstTrips(opts, n - 1);
      RunSnoc(opts, RollbackBurst(n - 1), Rollback(0));
      assert RollbackBurst(n) == RollbackBurst(n - 1) + [Rollback(0)];
      CountedRollbackBurst(opts, n);
    }
  }

  lemma {:induction false} NoThresholdNeverOpens(opts: Options, events: seq<Event>)
    requires opts.maxHeals <= 0 && opts.maxRollbacks <= 0
    ensures Run(opts, events).0.openUntil.None?
  {
    if events != [] {
      NoThresholdNeverOpens(opts, events[..|events| - 1]);
    }
  }

  /** An open period that is not positive has passed as soon as it starts. */
  lemma {:induction false} NoOpenPeriodHasPassed(opts: Options, events: seq<Event>, now: int)
    requires opts.openFor <= 0 && NonDecreasing(events) && (events != [] ==> events[|events| - 1].at <= now)
    ensures !OpenAt(Run(opts, events).0, now)
  {
    if events != [] {
      var before, e := events[..|events| - 1], events[|events| - 1];
      assert before != [] ==> before[|before| - 1].at <= e.at;
      NoOpenPeriodHasPassed(opts, before, now);
    }
  }

  /** After some run, at its end or later, the breaker refuses. */
  ghost predicate CanRefuse(opts: Options) {
    exists events, now :: NonDecreasing(events + [Ask(now)]) && OpenAt(Run(opts, events).0, now)
  }

  /** Whether a breaker ever refuses anything depends on its options alone, each of which can switch it off. */
  lemma RefusesIff(opts: Options)
    ensures CanRefuse(opts) <==> opts.window > 0 && (opts.maxHeals > 0 || opts.maxRollbacks > 0) && opts.openFor > 0
  {
    if events, now :| NonDecreasing(events + [Ask(now)]) && OpenAt(Run(opts, events).0, now) {
      var all := events + [Ask(now)];
      assert forall i | 0 <= i < |events| :: all[i] == events[i];
      assert events != [] ==> all[|events| - 1].at <= all[|events|].at;
      if opts.window <= 0 {
        NoWindowNeverOpens(opts, events);
      } else if opts.openFor <= 0 {
        NoOpenPeriodHasPassed(opts, events, now);
      } else if opts.maxHeals <= 0 && opts.maxRollbacks <= 0 {
        NoThresholdNeverOpens(opts, events);
      }
    }
    if opts.window > 0 && opts.openFor > 0 {
      if opts.maxHeals > 0 {
        BurstFillsTheWindow(opts, opts.maxHeals);
        assert NonDecreasing(Burst(opts.maxHeals) + [Ask(0)]);
      } else if opts.maxRollbacks > 0 {
        RollbackBurstTrips(opts, opts.maxRollbacks);
        assert NonDecreasing(RollbackBurst(opts.maxRollbacks) + [Ask(0)]);
      }
    }
  }

  /** A window that is not positive prunes every event at once, so the breaker never opens. */
  lemma {:induction false} NoWindowNeverOpens(opts: Options, events: seq<Event>)
    requires opts.window <= 0
    ensures Run(opts, events).0 == CLEAN
  {
    if events != [] {
      NoWindowNeverOpens(opts, events[..|events| - 1]);
      var now := events[|events| - 1].at;
      AfterDropsAll([now], now - opts.window);
      assert [] + [now] == [now];
    }
  }
}
