/** Warns of containers that have been near a limit for several sweeps in a row. */
module Predict {
  import opened Prelude
  import Detect

  datatype Sample = Sample(
    namespace: string, pod: string, container: string,
    usageBytes: int, limitBytes: int, cpuMilli: int, cpuLimit: int)

  datatype Options = Options(highRatio: real, minConsecutive: int)

  type Sweep = seq<Sample>

  datatype Resource = Memory | Cpu

  function Usage(s: Sample, r: Resource): int {
    if r.Memory? then s.usageBytes else s.cpuMilli
  }

  function Limit(s: Sample, r: Resource): int {
    if r.Memory? then s.limitBytes else s.cpuLimit
  }

  /** At or above the ratio; a resource without a limit has nothing to breach. */
  predicate High(opts: Options, s: Sample, r: Resource) {
    Limit(s, r) > 0 && Usage(s, r) as real / Limit(s, r) as real >= opts.highRatio
  }

  function Key(namespace: string, pod: string, container: string): string {
    namespace + "/" + pod + "/" + container
  }

  function StreakKey(s: Sample, r: Resource): string {
    (if r.Memory? then "mem|" else "cpu|") + Key(s.namespace, s.pod, s.container)
  }

  function ProblemFor(s: Sample, r: Resource): Detect.Problem {
    Detect.Problem(s.namespace, s.pod, s.container, if r.Memory? then Detect.MemoryPressure else Detect.CPUPressure)
  }

  // ----- What the streaks should be -----

  function HighKey(opts: Options, s: Sample, r: Resource): set<string> {
    if High(opts, s, r) then {StreakKey(s, r)} else {}
  }

  /** The keys that some sample of the sweep is high for. */
  function HighKeys(opts: Options, sweep: Sweep): set<string> {
    if sweep == [] then {}
    else
      var s := sweep[|sweep| - 1];
      HighKeys(opts, sweep[..|sweep| - 1]) + HighKey(opts, s, Memory) + HighKey(opts, s, Cpu)
  }

  /** How many of the most recent sweeps in a row had a high sample. */
  function Streak(opts: Options, sweeps: seq<Sweep>, k: string): nat {
    if sweeps == [] || k !in HighKeys(opts, sweeps[|sweeps| - 1]) then 0
    else Streak(opts, sweeps[..|sweeps| - 1], k) + 1
  }

  function Warning(opts: Options, sweeps: seq<Sweep>, s: Sample, r: Resource): seq<Detect.Problem> {
    if High(opts, s, r) && Streak(opts, sweeps, StreakKey(s, r)) >= opts.minConsecutive then [ProblemFor(s, r)] else []
  }

  /** The warnings owed to these samples of the latest sweep. */
  function Warnings(opts: Options, sweeps: seq<Sweep>, samples: Sweep): seq<Detect.Problem> {
    if samples == [] then []
    else
      var s := samples[|samples| - 1];
      Warnings(opts, sweeps, samples[..|samples| - 1])
      + Warning(opts, sweeps, s, Memory) + Warning(opts, sweeps, s, Cpu)
  }

  // ----- The predictor -----

  /** A missing counter reads as zero. */
  function Held(counters: map<string, nat>, k: string): nat {
    if k in counters then counters[k] else 0
  }

  class Predictor {
    const opts: Options
    var prev: map<string, nat>
    ghost var sweeps: seq<Sweep>

    constructor (opts: Options)
      ensures Valid() && this.opts == opts && sweeps == []
    {
      this.opts := opts;
      prev := map[];
      sweeps := [];
    }

    /** The stored streaks are the true ones, and only running streaks are stored. */
    ghost predicate Valid()
      reads this
    {
      forall k :: Held(prev, k) == Streak(opts, sweeps, k) && (k in prev <==> Held(prev, k) > 0)
    }

    method Observe(samples: Sweep) returns (problems: seq<Detect.Problem>)
      requires Valid()
      modifies this
      ensures Valid() && sweeps == old(sweeps) + [samples]
      ensures problems == Warnings(opts, sweeps, samples)
    {
      var next: map<string, nat> := map[];
      problems := [];
      ghost var all := sweeps + [samples];
      for i := 0 to |samples|
        modifies {}
        invariant problems == Warnings(opts, all, samples[..i])
        invariant next.Keys == HighKeys(opts, samples[..i])
        invariant forall k | k in next :: next[k] == Streak(opts, all, k)
      {
        var s := samples[i];
        assert samples[..i + 1][..i] == samples[..i];
        var forMemory, forCpu;
        next, forMemory := Count(s, Memory, next, samples);
        next, forCpu := Count(s, Cpu, next, samples);
        problems := problems + forMemory + forCpu;
      }
      assert samples[..|samples|] == samples;
      prev := next;
      assert forall k :: k !in HighKeys(opts, samples) ==> Streak(opts, all, k) == 0;
      sweeps := all;
    }

    /** One resource of one of the latest sweep's samples: its streak goes on, or is not carried over. */
    method Count(s: Sample, r: Resource, next: map<string, nat>, ghost samples: Sweep)
      returns (next': map<string, nat>, warned: seq<Detect.Problem>)
      requires Valid() && s in samples
      requires forall k | k in next :: next[k] == Streak(opts, sweeps + [samples], k)
      ensures forall k | k in next' :: next'[k] == Streak(opts, sweeps + [samples], k)
      ensures next'.Keys == next.Keys + HighKey(opts, s, r)
      ensures warned == Warning(opts, sweeps + [samples], s, r)
    {
      next', warned := next, [];
      if Limit(s, r) > 0 {
        var ratio := Usage(s, r) as real / Limit(s, r) as real;
        if ratio >= opts.highRatio {
          var k := StreakKey(s, r);
          HighStreak(opts, sweeps, samples, s, r);
          var streak := Held(prev, k) + 1;
          next' := next[k := streak];
          if streak >= opts.minConsecutive {
            warned := [ProblemFor(s, r)];
          }
        }
      }
    }
  }

  lemma {:induction false} HighKeysMembers(opts: Options, sweep: Sweep, k: string)
    ensures k in HighKeys(opts, sweep) <==>
      exists s, r | s in sweep && r in {Memory, Cpu} :: High(opts, s, r) && StreakKey(s, r) == k
  {
    if sweep != [] {
      var before, s := sweep[..|sweep| - 1], sweep[|sweep| - 1];
      HighKeysMembers(opts, before, k);
      assert forall x :: x in sweep <==> x in before || x == s;
    }
  }

  lemma HighStreak(opts: Options, sweeps: seq<Sweep>, samples: Sweep, s: Sample, r: Resource)
    requires s in samples && High(opts, s, r)
    ensures Streak(opts, sweeps + [samples], StreakKey(s, r)) == Streak(opts, sweeps, StreakKey(s, r)) + 1
  {
    HighKeysMembers(opts, samples, StreakKey(s, r));
    assert r in {Memory, Cpu};
    assert (sweeps + [samples])[..|sweeps|] == sweeps;
  }

  // ----- Over any sequence of sweeps -----

  /** A streak of n means exactly that the last n sweeps were all high. */
  lemma {:induction false} StreakCountsRecentSweeps(opts: Options, sweeps: seq<Sweep>, k: string, n: nat)
    ensures Streak(opts, sweeps, k) >= n <==> RecentlyHigh(opts, sweeps, k, n)
  {
    if sweeps != [] && n > 0 {
      var before := sweeps[..|sweeps| - 1];
      StreakCountsRecentSweeps(opts, before, k, n - 1);
      assert forall i | 0 <= i < |before| :: before[i] == sweeps[i];
    }
  }

  lemma {:induction false} WarningsMembers(opts: Options, sweeps: seq<Sweep>, samples: Sweep, p: Detect.Problem)
    ensures p in Warnings(opts, sweeps, samples) <==>
      exists s, r | s in samples && r in {Memory, Cpu} :: p in Warning(opts, sweeps, s, r)
  {
    if samples != [] {
      var before, s := samples[..|samples| - 1], samples[|samples| - 1];
      WarningsMembers(opts, sweeps, before, p);
      assert forall x :: x in samples <==> x in before || x == s;
    }
  }

  predicate RecentlyHigh(opts: Options, sweeps: seq<Sweep>, k: string, n: nat) {
    n <= |sweeps| && forall i | |sweeps| - n <= i < |sweeps| :: k in HighKeys(opts, sweeps[i])
  }

  /** The sample is high, and so was its container in each of the last MinConsecutive sweeps. */
  predicate Persistent(opts: Options, sweeps: seq<Sweep>, s: Sample, r: Resource) {
    High(opts, s, r) && RecentlyHigh(opts, sweeps, StreakKey(s, r), Max(1, opts.minConsecutive))
  }

  lemma WarningMeansPersistent(opts: Options, sweeps: seq<Sweep>, s: Sample, r: Resource)
    requires sweeps != [] && s in sweeps[|sweeps| - 1]
    ensures Warning(opts, sweeps, s, r) == if Persistent(opts, sweeps, s, r) then [ProblemFor(s, r)] else []
  {
    var now := sweeps[|sweeps| - 1];
    StreakCountsRecentSweeps(opts, sweeps, StreakKey(s, r), Max(1, opts.minConsecutive));
    if High(opts, s, r) {
      HighStreak(opts, sweeps[..|sweeps| - 1], now, s, r);
      assert sweeps[..|sweeps| - 1] + [now] == sweeps;
    }
  }

  /**
   * A problem is reported for exactly the containers that are high now and have been
   * for the last MinConsecutive sweeps (a threshold below one counts as one).
   */
  lemma WarnedIffPersistent(opts: Options, sweeps: seq<Sweep>, p: Detect.Problem)
    requires sweeps != []
    ensures var now := sweeps[|sweeps| - 1];
      p in Warnings(opts, sweeps, now) <==>
        exists s, r | s in now && r in {Memory, Cpu} :: p == ProblemFor(s, r) && Persistent(opts, sweeps, s, r)
  {
    var now := sweeps[|sweeps| - 1];
    WarningsMembers(opts, sweeps, now, p);
    forall s, r | s in now && r in {Memory, Cpu}
      ensures p in Warning(opts, sweeps, s, r) <==> p == ProblemFor(s, r) && Persistent(opts, sweeps, s, r)
    {
      WarningMeansPersistent(opts, sweeps, s, r);
    }
  }

  // ----- In terms of the samples alone -----

  /** At least the ratio of a limit that there is. */
  predicate NearLimit(opts: Options, s: Sample, r: Resource) {
    match r
    case Memory => s.limitBytes > 0 && s.usageBytes as real >= opts.highRatio * s.limitBytes as real
    case Cpu => s.cpuLimit > 0 && s.cpuMilli as real >= opts.highRatio * s.cpuLimit as real
  }

  predicate SameContainer(s: Sample, t: Sample) {
    s.namespace == t.namespace && s.pod == t.pod && s.container == t.container
  }

  /** As the API server has them. */
  predicate NamesAreNames(sweep: Sweep) {
    forall s | s in sweep :: '/' !in s.namespace && '/' !in s.pod
  }

  /** In this sweep some sample of the container was near its limit. */
  predicate WasNear(opts: Options, sweep: Sweep, s: Sample, r: Resource) {
    exists t | t in sweep :: SameContainer(t, s) && NearLimit(opts, t, r)
  }

  lemma HighIsNearLimit(opts: Options, s: Sample, r: Resource)
    ensures High(opts, s, r) <==> NearLimit(opts, s, r)
  {
    if Limit(s, r) > 0 {
      var usage, limit := Usage(s, r) as real, Limit(s, r) as real;
      var ratio := usage / limit;
      assert ratio * limit == usage;
      if ratio >= opts.highRatio {
        assert ratio * limit >= opts.highRatio * limit;
      } else {
        assert ratio * limit < opts.highRatio * limit;
      }
    }
  }

  lemma StreakKeysTellApart(s: Sample, r: Resource, t: Sample, q: Resource)
    requires '/' !in s.namespace && '/' !in s.pod && '/' !in t.namespace && '/' !in t.pod
    ensures StreakKey(s, r) == StreakKey(t, q) <==> r == q && SameContainer(s, t)
  {
    var tagged, other := StreakKey(s, r), StreakKey(t, q);
    assert tagged[0] == (if r.Memory? then 'm' else 'c') && other[0] == if q.Memory? then 'm' else 'c';
    assert tagged[4..] == Key(s.namespace, s.pod, s.container) && other[4..] == Key(t.namespace, t.pod, t.container);
    SlashedNames(s.namespace, s.pod, s.container, t.namespace, t.pod, t.container);
  }

  lemma HighKeyIsNear(opts: Options, sweep: Sweep, s: Sample, r: Resource)
    requires NamesAreNames(sweep) && '/' !in s.namespace && '/' !in s.pod
    ensures StreakKey(s, r) in HighKeys(opts, sweep) <==> WasNear(opts, sweep, s, r)
  {
    hide StreakKey, High, NearLimit;
    HighKeysMembers(opts, sweep, StreakKey(s, r));
    forall t, q | t in sweep
      ensures StreakKey(t, q) == StreakKey(s, r) <==> q == r && SameContainer(t, s)
      ensures High(opts, t, q) <==> NearLimit(opts, t, q)
    {
      StreakKeysTellApart(t, q, s, r);
      HighIsNearLimit(opts, t, q);
    }
    assert r in {Memory, Cpu};
  }

  /**
   * In real names: a warning is given exactly for a container and resource near the
   * limit now and, by some sample of the container, in each of the last
   * MinConsecutive sweeps.
   */
  lemma WarnedIffNearThroughout(opts: Options, sweeps: seq<Sweep>, p: Detect.Problem)
    requires sweeps != [] && forall i | 0 <= i < |sweeps| :: NamesAreNames(sweeps[i])
    ensures var now := sweeps[|sweeps| - 1];
      p in Warnings(opts, sweeps, now) <==>
        exists s, r | s in now && r in {Memory, Cpu} ::
          && p.namespace == s.namespace && p.pod == s.pod && p.container == s.container
          && p.kind == (if r.Cpu? then Detect.CPUPressure else Detect.MemoryPressure)
          && NearLimit(opts, s, r) && NearThroughout(opts, sweeps, s, r)
  {
    hide StreakKey, High, NearLimit, HighKeys, Warnings, RecentlyHigh, NearThroughout;
    var now := sweeps[|sweeps| - 1];
    WarnedIffPersistent(opts, sweeps, p);
    forall s, r | s in now && r in {Memory, Cpu}
      ensures Persistent(opts, sweeps, s, r) <==> NearLimit(opts, s, r) && NearThroughout(opts, sweeps, s, r)
    {
      HighIsNearLimit(opts, s, r);
      RecentlyNear(opts, sweeps, s, r);
    }
  }

  predicate NearThroughout(opts: Options, sweeps: seq<Sweep>, s: Sample, r: Resource) {
    var n := if opts.minConsecutive > 1 then opts.minConsecutive else 1;
    n <= |sweeps| && forall i | |sweeps| - n <= i < |sweeps| :: WasNear(opts, sweeps[i], s, r)
  }

  lemma RecentlyNear(opts: Options, sweeps: seq<Sweep>, s: Sample, r: Resource)
    requires '/' !in s.namespace && '/' !in s.pod && forall i | 0 <= i < |sweeps| :: NamesAreNames(sweeps[i])
    ensures RecentlyHigh(opts, sweeps, StreakKey(s, r), Max(1, opts.minConsecutive))
      <==> NearThroughout(opts, sweeps, s, r)
  {
    hide StreakKey, HighKeys, WasNear, NamesAreNames;
    forall i | 0 <= i < |sweeps|
      ensures StreakKey(s, r) in HighKeys(opts, sweeps[i]) <==> WasNear(opts, sweeps[i], s, r)
    {
      HighKeyIsNear(opts, sweeps[i], s, r);
    }
  }

  // ----- Memory and CPU do not mix -----

  predicate SameMemory(x: Sample, y: Sample) {
    x == y.(cpuMilli := x.cpuMilli, cpuLimit := x.cpuLimit)
  }

  predicate SweepsSameMemory(xs: seq<Sweep>, ys: seq<Sweep>) {
    && |xs| == |ys|
    && forall i | 0 <= i < |xs| :: |xs[i]| == |ys[i]| && forall j | 0 <= j < |xs[i]| :: SameMemory(xs[i][j], ys[i][j])
  }

  lemma TagsDiffer(s: Sample, t: Sample)
    ensures StreakKey(s, Memory) != StreakKey(t, Cpu)
  {
    assert StreakKey(s, Memory)[0] == 'm' && StreakKey(t, Cpu)[0] == 'c';
  }

  lemma MemoryHighIgnoresCpu(opts: Options, x: Sweep, y: Sweep, s: Sample)
    requires |x| == |y| && forall j | 0 <= j < |x| :: SameMemory(x[j], y[j])
    requires StreakKey(s, Memory) in HighKeys(opts, x)
    ensures StreakKey(s, Memory) in HighKeys(opts, y)
  {
    HighKeysMembers(opts, x, StreakKey(s, Memory));
    HighKeysMembers(opts, y, StreakKey(s, Memory));
    var t, r :| t in x && r in {Memory, Cpu} && High(opts, t, r) && StreakKey(t, r) == StreakKey(s, Memory);
    TagsDiffer(s, t);
    var j :| 0 <= j < |x| && x[j] == t;
    assert y[j] in y && High(opts, y[j], Memory) && StreakKey(y[j], Memory) == StreakKey(s, Memory);
  }

  /** Whatever CPU did in any sweep, memory streaks are the same. */
  lemma {:induction false} MemoryStreakIgnoresCpu(opts: Options, xs: seq<Sweep>, ys: seq<Sweep>, s: Sample)
    requires SweepsSameMemory(xs, ys)
    ensures Streak(opts, xs, StreakKey(s, Memory)) == Streak(opts, ys, StreakKey(s, Memory))
  {
    if xs != [] {
      var n := |xs| - 1;
      MemoryStreakIgnoresCpu(opts, xs[..n], ys[..n], s);
      if StreakKey(s, Memory) in HighKeys(opts, xs[n]) {
        MemoryHighIgnoresCpu(opts, xs[n], ys[n], s);
      }
      if StreakKey(s, Memory) in HighKeys(opts, ys[n]) {
        MemoryHighIgnoresCpu(opts, ys[n], xs[n], s);
      }
    }
  }
}
