/** What containers really use, and which declared requests are wrong. CPU in millicores, memory in bytes. */
module Rightsize {
  import opened Prelude

  datatype Resource = Cpu | Memory

  datatype Amounts = Amounts(cpu: int, memory: int) {
    function Of(r: Resource): int {
      if r.Cpu? then cpu else memory
    }
  }

  datatype Sample = Sample(
    namespace: string, workload: string, container: string,
    usage: Amounts, request: Amounts, limit: Amounts)
  {
    function Key(): string {
      namespace + "/" + workload + "/" + container
    }
  }

  datatype Observation = Observation(
    namespace: string, workload: string, container: string,
    samples: nat, peak: Amounts, sum: Amounts,
    request: Amounts, limit: Amounts,   // the most recently seen spec
    first: int, last: int)
  {
    /** Go's integer division truncates toward zero. */
    function Mean(r: Resource): int {
      if samples == 0 then 0
      else if sum.Of(r) >= 0 then sum.Of(r) / samples
      else -(-sum.Of(r) / samples)
    }
  }

  /** Kubernetes names hold no slash, so distinct containers have distinct histories. */
  lemma KeysDistinguishContainers(s: Sample, t: Sample)
    requires '/' !in s.namespace && '/' !in s.workload && '/' !in t.namespace && '/' !in t.workload
    ensures s.Key() == t.Key() <==> s.namespace == t.namespace && s.workload == t.workload && s.container == t.container
  {
    SlashedNames(s.namespace, s.workload, s.container, t.namespace, t.workload, t.container);
  }

  /** The mean is the exact quotient, rounded toward zero. */
  lemma MeanIsQuotient(o: Observation, r: Resource)
    ensures o.samples == 0 ==> o.Mean(r) == 0
    ensures o.samples > 0 ==>
      var sum, mean := (if r.Cpu? then o.sum.cpu else o.sum.memory), o.Mean(r);
      if sum >= 0 then mean * o.samples <= sum < (mean + 1) * o.samples
      else (mean - 1) * o.samples < sum <= mean * o.samples
  {
    var sum := if r.Cpu? then o.sum.cpu else o.sum.memory;
    if o.samples > 0 {
      if sum >= 0 {
        assert sum == sum / o.samples * o.samples + sum % o.samples;
      } else {
        assert -sum == -sum / o.samples * o.samples + -sum % o.samples;
      }
    }
  }

  // ----- Folding samples -----

  function Admitted(s: Sample, now: int): Observation {
    var none := Amounts(0, 0);
    Observation(s.namespace, s.workload, s.container, 0, none, none, none, none, now, now)
  }

  function Folded(o: Observation, s: Sample, now: int): Observation {
    o.(samples := o.samples + 1,
       sum := Amounts(o.sum.cpu + s.usage.cpu, o.sum.memory + s.usage.memory),
       peak := Amounts(Max(o.peak.cpu, s.usage.cpu), Max(o.peak.memory, s.usage.memory)),
       request := s.request, limit := s.limit, last := now)
  }

  /** A sample and when it was taken. */
  datatype Timed = Timed(sample: Sample, at: int)

  function SumOf(log: seq<Timed>, r: Resource): int {
    if log == [] then 0 else SumOf(log[..|log| - 1], r) + log[|log| - 1].sample.usage.Of(r)
  }

  /** The highest usage in the log, never below zero. */
  ghost predicate IsPeak(log: seq<Timed>, r: Resource, peak: int) {
    && peak >= 0
    && (forall t | t in log :: t.sample.usage.Of(r) <= peak)
    && (peak > 0 ==> exists t :: t in log && t.sample.usage.Of(r) == peak)
  }

  /** The observation is what its log says. */
  ghost predicate Records(o: Observation, log: seq<Timed>) {
    && log != [] && o.samples == |log|
    && (forall r :: o.sum.Of(r) == SumOf(log, r) && IsPeak(log, r, o.peak.Of(r)))
    && o.first == log[0].at && o.last == log[|log| - 1].at
    && o.request == log[|log| - 1].sample.request && o.limit == log[|log| - 1].sample.limit
  }

  lemma FoldKeepsPeak(log: seq<Timed>, t: Timed, r: Resource, peak: int)
    requires IsPeak(log, r, peak)
    ensures IsPeak(log + [t], r, Max(peak, t.sample.usage.Of(r)))
  {
    assert t in log + [t];
    assert forall x | x in log :: x in log + [t];
  }

  lemma FoldKeepsRecords(o: Observation, log: seq<Timed>, s: Sample, now: int)
    requires Records(o, log) || (o == Admitted(s, now) && log == [])
    ensures Records(Folded(o, s, now), log + [Timed(s, now)])
  {
    var t := Timed(s, now);
    assert (log + [t])[..|log|] == log;
    forall r
      ensures Folded(o, s, now).sum.Of(r) == SumOf(log + [t], r)
      ensures IsPeak(log + [t], r, Folded(o, s, now).peak.Of(r))
    {
      assert IsPeak(log, r, o.peak.Of(r));
      FoldKeepsPeak(log, t, r, o.peak.Of(r));
    }
  }

  // ----- The tracker -----

  type Observations = map<string, Observation>

  /** The observations, and every sample of each tracked container since it was last admitted. */
  datatype History = History(obs: Observations, logs: map<string, seq<Timed>>)

  /** No container was last seen before this one. */
  predicate Stalest(obs: Observations, k: string) {
    k in obs && forall j | j in obs :: obs[k].last <= obs[j].last
  }

  function Dropped(h: History, k: string): History {
    History(h.obs - {k}, h.logs - {k})
  }

  /** Room for container k: if it is new and the history full, a stalest container makes way. */
  ghost predicate MadeRoom(h: History, maxTracked: nat, k: string, room: History) {
    if k in h.obs || |h.obs| < maxTracked then room == h
    else exists out :: Stalest(h.obs, out) && room == Dropped(h, out)
  }

  function Extended(h: History, k: string, s: Sample, now: int): History {
    var o := if k in h.obs then h.obs[k] else Admitted(s, now);
    var log := if k in h.obs && k in h.logs then h.logs[k] else [];
    History(h.obs[k := Folded(o, s, now)], h.logs[k := log + [Timed(s, now)]])
  }

  /** One sample's effect; without a controller or container name it has nothing to accumulate against. */
  ghost predicate Takes(h: History, maxTracked: nat, s: Sample, now: int, h': History) {
    if s.workload == "" || s.container == "" then h' == h
    else exists room :: MadeRoom(h, maxTracked, s.Key(), room) && h' == Extended(room, s.Key(), s, now)
  }

  ghost predicate StepAt(path: seq<History>, maxTracked: nat, samples: seq<Sample>, now: int, i: nat)
    requires i < |samples| && |path| == |samples| + 1
  {
    Takes(path[i], maxTracked, samples[i], now, path[i + 1])
  }

  ghost predicate IsPath(path: seq<History>, maxTracked: nat, samples: seq<Sample>, now: int) {
    && |path| == |samples| + 1
    && forall i: nat | i < |samples| :: StepAt(path, maxTracked, samples, now, i)
  }

  /** A sweep's effect: its samples taken one after another. */
  ghost predicate TakesAll(h: History, maxTracked: nat, samples: seq<Sample>, now: int, h': History) {
    exists path :: IsPath(path, maxTracked, samples, now) && path[0] == h && path[|samples|] == h'
  }

  lemma PathSnoc(path: seq<History>, maxTracked: nat, samples: seq<Sample>, now: int, s: Sample, h: History)
    requires IsPath(path, maxTracked, samples, now) && Takes(path[|samples|], maxTracked, s, now, h)
    ensures IsPath(path + [h], maxTracked, samples + [s], now)
  {
    forall i: nat | i < |samples + [s]|
      ensures StepAt(path + [h], maxTracked, samples + [s], now, i)
    {
      if i < |samples| {
        assert StepAt(path, maxTracked, samples, now, i);
      }
    }
  }

  ghost predicate AllRecord(h: History) {
    && h.logs.Keys == h.obs.Keys
    && forall k {:trigger Records(h.obs[k], h.logs[k])} | k in h.obs :: Records(h.obs[k], h.logs[k])
  }

  lemma ExtendKeepsAllRecord(h: History, k: string, s: Sample, now: int)
    requires AllRecord(h)
    ensures AllRecord(Extended(h, k, s, now))
  {
    if k in h.obs {
      assert Records(h.obs[k], h.logs[k]);
      FoldKeepsRecords(h.obs[k], h.logs[k], s, now);
    } else {
      FoldKeepsRecords(Admitted(s, now), [], s, now);
    }
    var after := Extended(h, k, s, now);
    forall j | j in after.obs
      ensures Records(after.obs[j], after.logs[j])
    {
      if j != k {
        assert Records(h.obs[j], h.logs[j]);
      }
    }
  }

  lemma DropKeepsAllRecord(h: History, k: string)
    requires AllRecord(h) && k in h.obs
    ensures AllRecord(Dropped(h, k)) && |Dropped(h, k).obs| == |h.obs| - 1
  {
    var after := Dropped(h, k);
    assert after.obs.Keys == h.obs.Keys - {k};
    forall j | j in after.obs
      ensures Records(after.obs[j], after.logs[j])
    {
      assert Records(h.obs[j], h.logs[j]);
    }
  }

  ghost predicate Faithful(h: History, maxTracked: nat) {
    AllRecord(h) && |h.obs| <= maxTracked
  }

  lemma RoomKeepsFaithful(h: History, maxTracked: nat, k: string, room: History)
    requires Faithful(h, maxTracked) && maxTracked > 0 && MadeRoom(h, maxTracked, k, room)
    ensures Faithful(room, maxTracked) && (k in room.obs || |room.obs| < maxTracked)
  {
    if room != h {
      var out :| Stalest(h.obs, out) && room == Dropped(h, out);
      DropKeepsAllRecord(h, out);
    }
  }

  lemma ExtendKeepsFaithful(h: History, maxTracked: nat, k: string, s: Sample, now: int)
    requires Faithful(h, maxTracked) && (k in h.obs || |h.obs| < maxTracked)
    ensures Faithful(Extended(h, k, s, now), maxTracked)
  {
    ExtendKeepsAllRecord(h, k, s, now);
    assert Extended(h, k, s, now).obs.Keys == h.obs.Keys + {k};
  }

  lemma TakeKeepsFaithful(h: History, maxTracked: nat, s: Sample, now: int, h': History)
    requires Faithful(h, maxTracked) && maxTracked > 0 && Takes(h, maxTracked, s, now, h')
    ensures Faithful(h', maxTracked)
  {
    if s.workload != "" && s.container != "" {
      var k := s.Key();
      var room :| MadeRoom(h, maxTracked, k, room) && h' == Extended(room, k, s, now);
      RoomKeepsFaithful(h, maxTracked, k, room);
      ExtendKeepsFaithful(room, maxTracked, k, s, now);
    }
  }

  /**
   * However samples come in, each tracked container's count, sums, peaks, spec and
   * times are those of all its samples since it was last admitted, and no more than
   * maxTracked containers are held.
   */
  lemma {:induction false} HistoryStaysFaithful(path: seq<History>, maxTracked: nat, samples: seq<Sample>, now: int,
                                                n: nat)
    requires IsPath(path, maxTracked, samples, now) && n <= |samples|
    requires Faithful(path[0], maxTracked) && maxTracked > 0
    ensures Faithful(path[n], maxTracked)
  {
    if n > 0 {
      HistoryStaysFaithful(path, maxTracked, samples, now, n - 1);
      assert StepAt(path, maxTracked, samples, now, n - 1);
      TakeKeepsFaithful(path[n - 1], maxTracked, samples[n - 1], now, path[n]);
    }
  }

  /** A container that another made way for, if one did: a stalest one, and only for a new one in a full history. */
  predicate MadeWay(h: History, maxTracked: nat, k: string, out: string) {
    && k !in h.obs && |h.obs| >= maxTracked && out in h.obs
    && forall j | j in h.obs :: h.obs[out].last <= h.obs[j].last
  }

  /**
   * Every sample of an owned container goes on that container's log, which starts
   * afresh if it was not tracked; no other log changes, and at most one goes, a stalest
   * one to make way.
   */
  lemma EverySampleIsLogged(path: seq<History>, maxTracked: nat, samples: seq<Sample>, now: int, i: nat)
    requires IsPath(path, maxTracked, samples, now) && i < |samples|
    ensures var s, h, h' := samples[i], path[i], path[i + 1];
      var k := s.Key();
      if s.workload == "" || s.container == "" then h' == h
      else
        && k in h'.obs && k in h'.logs
        && h'.logs[k] == (if k in h.obs && k in h.logs then h.logs[k] else []) + [Timed(s, now)]
        && (forall j | j in h'.logs && j != k :: j in h.logs && h'.logs[j] == h.logs[j])
        && (forall j | j in h.obs && j !in h'.obs :: MadeWay(h, maxTracked, k, j))
        && forall j, j' | j in h.obs && j !in h'.obs && j' in h.obs && j' !in h'.obs :: j == j'
  {
    assert StepAt(path, maxTracked, samples, now, i);
  }

  class Tracker {
    var obs: Observations
    const maxTracked: nat
    var dirty: bool
    ghost var logs: map<string, seq<Timed>>

    constructor (maxTracked: int)
      ensures Valid() && obs == map[] && !dirty
      ensures this.maxTracked == if maxTracked <= 0 then 400 else maxTracked
    {
      this.maxTracked := if maxTracked <= 0 then 400 else maxTracked;
      obs, dirty, logs := map[], false, map[];
    }

    ghost function Seen(): History
      reads this
    {
      History(obs, logs)
    }

    ghost predicate Valid()
      reads this
    {
      Faithful(Seen(), maxTracked) && maxTracked > 0
    }

    method Observe(samples: seq<Sample>, now: int)
      requires Valid()
      modifies this
      ensures Valid() && TakesAll(old(Seen()), maxTracked, samples, now, Seen())
      ensures dirty == (old(dirty) || samples != [])
    {
      ghost var path := [Seen()];
      if |samples| == 0 {
        assert IsPath(path, maxTracked, samples, now);
        return;
      }
      for i := 0 to |samples|
        modifies `obs, `logs
        invariant Valid() && IsPath(path, maxTracked, samples[..i], now)
        invariant path[0] == old(Seen()) && path[i] == Seen()
      {
        Take(samples[i], now);
        PathSnoc(path, maxTracked, samples[..i], now, samples[i], Seen());
        assert samples[..i + 1] == samples[..i] + [samples[i]];
        path := path + [Seen()];
      }
      assert samples[..|samples|] == samples;
      dirty := true;
    }

    /** The loop's body, for one sample. */
    method Take(s: Sample, now: int)
      requires Valid()
      modifies `obs, `logs
      ensures Valid() && Takes(old(Seen()), maxTracked, s, now, Seen())
    {
      if s.workload == "" || s.container == "" {
        return;
      }
      var k := s.Key();
      var o;
      if k in obs {
        o := obs[k];
      } else {
        if |obs| >= maxTracked {
          ForgetStalest();
        }
        o := Admitted(s, now);
      }
      ghost var room := Seen();
      assert MadeRoom(old(Seen()), maxTracked, k, room);
      RoomKeepsFaithful(old(Seen()), maxTracked, k, room);
      ExtendKeepsFaithful(room, maxTracked, k, s, now);
      logs := logs[k := (if k in logs then logs[k] else []) + [Timed(s, now)]];
      obs := obs[k := Folded(o, s, now)];
      assert Seen() == Extended(room, k, s, now);
    }

    method ForgetStalest()
      requires Valid() && obs != map[]
      modifies `obs, `logs
      ensures Valid() && |obs| < |old(obs)|
      ensures exists k :: Stalest(old(obs), k) && Seen() == Dropped(old(Seen()), k)
    {
      var left := obs.Keys;
      var stalest :| stalest in left;
      left := left - {stalest};
      while left != {}
        modifies {}
        invariant left <= obs.Keys && stalest in obs
        invariant forall j | j in obs && j !in left :: obs[stalest].last <= obs[j].last
      {
        var k :| k in left;
        left := left - {k};
        if obs[k].last < obs[stalest].last {
          stalest := k;
        }
      }
      assert Stalest(obs, stalest);
      DropKeepsAllRecord(Seen(), stalest);
      obs := obs - {stalest};
      logs := logs - {stalest};
    }
  }

  // ----- Judging an observation -----

  datatype Kind = Oversized | Undersized | NoRequests

  datatype Finding = Finding(
    kind: Kind, resource: Resource, current: int, peak: int, mean: int, recommended: int, delta: int)

  datatype Options = Options(
    minSamples: int, minWindow: int, overRatio: real, headroom: real, minSaving: Amounts)

  const DAY := 86_400_000_000_000
  const DEFAULTS := Options(60, DAY, 0.4, 1.5, Amounts(50, 0x400_0000))

  function WithDefaults(o: Options): (d: Options)
    ensures d.minSamples > 0 && d.minWindow > 0 && d.overRatio > 0.0 && d.headroom >= 1.0
    ensures d.overRatio == (if o.overRatio > 0.0 then o.overRatio else 0.4) && d.minSaving == o.minSaving
    ensures d.headroom == if o.headroom >= 1.0 then o.headroom else 1.5
  {
    o.(minSamples := if o.minSamples <= 0 then DEFAULTS.minSamples else o.minSamples,
       minWindow := if o.minWindow <= 0 then DEFAULTS.minWindow else o.minWindow,
       overRatio := if o.overRatio <= 0.0 then DEFAULTS.overRatio else o.overRatio,
       headroom := if o.headroom < 1.0 then DEFAULTS.headroom else o.headroom)
  }

  function Step(r: Resource): int {
    if r.Cpu? then 10 else 0x100_0000
  }

  /** Up to the next whole step; nothing for a value that is not positive. */
  function RoundUp(v: int, step: int): int
    requires step > 0
  {
    if v <= 0 then 0 else (v + step - 1) / step * step
  }

  function Recommended(peak: int, r: Resource, headroom: real): int {
    RoundUp(Trunc(peak as real * headroom), Step(r))
  }

  /** The finding on one resource of an observation, if it has one. */
  function JudgeOne(o: Observation, r: Resource, opts: Options): Option<Finding> {
    var request, peak := o.request.Of(r), o.peak.Of(r);
    var recommended := Recommended(peak, r, opts.headroom);
    var f := Finding(NoRequests, r, request, peak, o.Mean(r), recommended, recommended - request);
    if request == 0 then Some(f)
    else if peak > request then Some(f.(kind := Undersized))
    else if peak as real < request as real * opts.overRatio && recommended < request
            && request - recommended >= opts.minSaving.Of(r)
    then Some(f.(kind := Oversized))
    else None
  }

  function Found(f: Option<Finding>): seq<Finding> {
    if f.Some? then [f.value] else []
  }

  method JudgeResource(o: Observation, r: Resource, opts: Options) returns (finding: Option<Finding>)
    ensures finding == JudgeOne(o, r, opts)
  {
    var request, peak := o.request.Of(r), o.peak.Of(r);
    var f := Finding(NoRequests, r, request, peak, o.Mean(r), 0, 0);
    var recommended := Recommended(peak, r, opts.headroom);
    if request == 0 {
      return Some(f.(recommended := recommended, delta := recommended));
    }
    if peak > request {
      return Some(f.(kind := Undersized, recommended := recommended, delta := recommended - request));
    }
    if peak as real < request as real * opts.overRatio {
      if recommended >= request {
        return None;
      }
      var delta := recommended - request;
      if -delta < opts.minSaving.Of(r) {
        return None;
      }
      return Some(f.(kind := Oversized, recommended := recommended, delta := delta));
    }
    finding := None;
  }

  /** The findings on the first n resources. */
  function FindingsUpTo(o: Observation, n: nat, opts: Options): seq<Finding>
    requires n <= 2
  {
    if n == 0 then []
    else if n == 1 then Found(JudgeOne(o, Cpu, opts))
    else Found(JudgeOne(o, Cpu, opts)) + Found(JudgeOne(o, Memory, opts))
  }

  method Judge(o: Observation, opts: Options) returns (out: seq<Finding>)
    ensures out == Found(JudgeOne(o, Cpu, opts)) + Found(JudgeOne(o, Memory, opts))
  {
    out := [];
    var resources := [Cpu, Memory];
    for i := 0 to 2
      invariant out == FindingsUpTo(o, i, opts)
    {
      var f := JudgeResource(o, resources[i], opts);
      if f.Some? {
        out := out + [f.value];
      }
    }
  }

  // ----- What is recommended and found, exactly -----

  /** The least whole step, of 10 millicores or 16 MiB, not below the peak with headroom; nothing for no peak. */
  predicate IsRecommended(peak: int, r: Resource, headroom: real, recommended: int) {
    var wanted, step := Trunc(peak as real * headroom), if r.Cpu? then 10 else 16777216;
    if wanted <= 0 then recommended == 0
    else recommended % step == 0 && recommended - step < wanted <= recommended
  }

  lemma RecommendedIsLeastStep(peak: int, r: Resource, headroom: real, recommended: int)
    ensures recommended == Recommended(peak, r, headroom) <==> IsRecommended(peak, r, headroom, recommended)
  {
    var wanted := Trunc(peak as real * headroom);
    if wanted > 0 {
      if r.Cpu? {
        LeastTen(wanted, recommended);
      } else {
        LeastSixteenMi(wanted, recommended);
      }
    }
  }

  lemma LeastTen(v: int, n: int)
    requires v > 0
    ensures n == RoundUp(v, 10) <==> n % 10 == 0 && n - 10 < v <= n
  {
  }

  lemma LeastSixteenMi(v: int, n: int)
    requires v > 0
    ensures n == RoundUp(v, 16777216) <==> n % 16777216 == 0 && n - 16777216 < v <= n
  {
  }

  /** Setting the request to the recommendation would save less than this, or nothing. */
  ghost predicate SavesTooLittle(request: int, peak: int, r: Resource, headroom: real, saving: int) {
    exists n :: IsRecommended(peak, r, headroom, n) && (n >= request || request - n < saving)
  }

  /** There is something to say about a resource exactly then, and this is what. */
  ghost predicate IsFinding(o: Observation, r: Resource, opts: Options, finding: Option<Finding>) {
    var request := if r.Cpu? then o.request.cpu else o.request.memory;
    var peak := if r.Cpu? then o.peak.cpu else o.peak.memory;
    var saving := if r.Cpu? then opts.minSaving.cpu else opts.minSaving.memory;
    match finding
    case None =>
      && request != 0 && peak <= request
      && (peak as real < request as real * opts.overRatio ==>
            SavesTooLittle(request, peak, r, opts.headroom, saving))
    case Some(f) =>
      && f.resource == r && f.current == request && f.peak == peak && f.mean == o.Mean(r)
      && IsRecommended(peak, r, opts.headroom, f.recommended) && f.delta == f.recommended - request
      && match f.kind
         case NoRequests => request == 0
         case Undersized => request != 0 && peak > request
         case Oversized =>
           && request != 0 && peak <= request && peak as real < request as real * opts.overRatio
           && f.recommended < request && request - f.recommended >= saving
  }

  lemma FindingIsExact(o: Observation, r: Resource, opts: Options, finding: Option<Finding>)
    ensures JudgeOne(o, r, opts) == finding <==> IsFinding(o, r, opts, finding)
  {
    hide IsRecommended, Recommended;
    var peak := if r.Cpu? then o.peak.cpu else o.peak.memory;
    forall n {
      RecommendedIsLeastStep(peak, r, opts.headroom, n);
    }
    assert peak == o.peak.Of(r);
    var recommended := Recommended(peak, r, opts.headroom);
    assert IsRecommended(peak, r, opts.headroom, recommended);
  }

  // ----- A recommendation settles the matter -----

  lemma RoundUpReaches(v: int, step: int)
    requires step > 0
    ensures RoundUp(v, step) >= v && RoundUp(v, step) >= 0
    ensures v > 0 ==> RoundUp(v, step) < v + step
  {
    if v > 0 {
      var q := (v + step - 1) / step;
      assert v + step - 1 == q * step + (v + step - 1) % step;
    }
  }

  lemma HeadroomKeeps(v: int, headroom: real)
    requires headroom >= 1.0
    ensures v >= 0 ==> Trunc(v as real * headroom) >= v
    ensures v <= 0 ==> Trunc(v as real * headroom) <= 0
  {
    if v >= 0 {
      assert v as real * headroom >= v as real * 1.0;
    } else {
      assert v as real * headroom <= v as real * 1.0;
    }
  }

  /** No recommendation is ever below what was measured. */
  lemma RecommendedCoversPeak(peak: int, r: Resource, headroom: real)
    requires headroom >= 1.0
    ensures Recommended(peak, r, headroom) >= peak
    ensures Recommended(peak, r, headroom) >= 0
    ensures Recommended(peak, r, headroom) > 0 <==> peak > 0
  {
    HeadroomKeeps(peak, headroom);
    RoundUpReaches(Trunc(peak as real * headroom), Step(r));
  }

  function WithRequest(o: Observation, r: Resource, request: int): Observation {
    o.(request := if r.Cpu? then o.request.(cpu := request) else o.request.(memory := request))
  }

  /** Nothing to report about a resource depends on its request and peak alone. */
  predicate Unremarkable(request: int, peak: int, r: Resource, opts: Options) {
    var recommended := Recommended(peak, r, opts.headroom);
    && request != 0 && peak <= request
    && (peak as real < request as real * opts.overRatio ==>
          recommended >= request || request - recommended < opts.minSaving.Of(r))
  }

  lemma RecommendedIsUnremarkable(peak: int, r: Resource, opts: Options)
    requires opts.headroom >= 1.0
    ensures Unremarkable(Recommended(peak, r, opts.headroom), peak, r, opts) <==> peak > 0
  {
    RecommendedCoversPeak(peak, r, opts.headroom);
  }

  lemma NoFindingIffUnremarkable(o: Observation, r: Resource, opts: Options)
    ensures JudgeOne(o, r, opts).None? <==> Unremarkable(o.request.Of(r), o.peak.Of(r), r, opts)
    ensures JudgeOne(o, r, opts).Some? ==>
      var f := JudgeOne(o, r, opts).value;
      f.peak == o.peak.Of(r) && f.recommended == Recommended(o.peak.Of(r), r, opts.headroom)
  {
  }

  /**
   * Applying a finding's recommendation and judging the same measurements again
   * finds nothing more on that resource, exactly when anything was measured at all.
   */
  lemma RecommendationSettles(o: Observation, r: Resource, opts: Options)
    requires JudgeOne(o, r, WithDefaults(opts)).Some?
    ensures var d := WithDefaults(opts);
      var f := JudgeOne(o, r, d).value;
      var resized := WithRequest(o, r, f.recommended);
      && f.recommended >= f.peak == o.peak.Of(r)
      && (JudgeOne(resized, r, d).None? <==> o.peak.Of(r) > 0)
  {
    var d := WithDefaults(opts);
    NoFindingIffUnremarkable(o, r, d);
    NoFindingIffUnremarkable(WithRequest(o, r, Recommended(o.peak.Of(r), r, d.headroom)), r, d);
    RecommendedIsUnremarkable(o.peak.Of(r), r, d);
    RecommendedCoversPeak(o.peak.Of(r), r, d.headroom);
  }

  /** Resizing one resource leaves what is found on the other. */
  lemma OtherResourceUntouched(o: Observation, r: Resource, other: Resource, request: int, opts: Options)
    requires other != r
    ensures JudgeOne(WithRequest(o, r, request), other, opts) == JudgeOne(o, other, opts)
  {
    var resized := WithRequest(o, r, request);
    assert resized.request.Of(other) == o.request.Of(other);
    assert resized.Mean(other) == o.Mean(other);
  }

  /** One resource's request as its finding, if there is one, recommends it. */
  function Settled(o: Observation, r: Resource, finding: Option<Finding>): Observation {
    if finding.Some? then WithRequest(o, r, finding.value.recommended) else o
  }

  /** Every finding's recommendation applied. */
  function Resized(o: Observation, opts: Options): Observation {
    Settled(Settled(o, Cpu, JudgeOne(o, Cpu, opts)), Memory, JudgeOne(o, Memory, opts))
  }

  /** Applying all of a container's findings at once leaves none, exactly when each of them measured something. */
  lemma SizingSettles(o: Observation, opts: Options)
    ensures var d := WithDefaults(opts);
      FindingsUpTo(Resized(o, d), 2, d) == [] <==> forall f | f in FindingsUpTo(o, 2, d) :: f.peak > 0
  {
    var d := WithDefaults(opts);
    var cpu, memory := JudgeOne(o, Cpu, d), JudgeOne(o, Memory, d);
    var half := Settled(o, Cpu, cpu);
    if cpu.Some? {
      RecommendationSettles(o, Cpu, opts);
      OtherResourceUntouched(o, Cpu, Memory, cpu.value.recommended, d);
      assert cpu.value in FindingsUpTo(o, 2, d);
    }
    assert JudgeOne(half, Memory, d) == memory;
    if memory.Some? {
      RecommendationSettles(half, Memory, opts);
      OtherResourceUntouched(half, Memory, Cpu, memory.value.recommended, d);
      assert memory.value in FindingsUpTo(o, 2, d);
    }
    assert JudgeOne(Resized(o, d), Cpu, d) == JudgeOne(half, Cpu, d);
    assert cpu.Some? ==> (JudgeOne(Resized(o, d), Cpu, d).None? <==> cpu.value.peak > 0);
    assert memory.Some? ==> (JudgeOne(Resized(o, d), Memory, d).None? <==> memory.value.peak > 0);
  }

  /** An oversized container's recommendation really shrinks its request, by at least the saving asked for. */
  lemma FindingsMeanWhatTheySay(o: Observation, r: Resource, opts: Options)
    ensures var d := WithDefaults(opts);
      match JudgeOne(o, r, d)
      case None => o.request.Of(r) != 0 && o.peak.Of(r) <= o.request.Of(r)
      case Some(f) =>
        && (f.kind.NoRequests? <==> f.current == 0)
        && (f.kind.Undersized? <==> f.current != 0 && f.peak > f.current)
        && (f.kind.Undersized? && f.current > 0 ==> f.delta > 0)
        && (f.kind.Oversized? ==> f.peak <= f.recommended < f.current && -f.delta >= d.minSaving.Of(r))
        && f.recommended == f.current + f.delta
  {
    RecommendedCoversPeak(o.peak.Of(r), r, WithDefaults(opts).headroom);
  }
}
