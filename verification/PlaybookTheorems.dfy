/** What every run of the playbook keeps: quarantine holds, the book stays bounded, waits back off. */
module PlaybookTheorems {
  import opened Prelude
  import opened Playbook

  datatype Op<A> =
    | Learn(controller: string, kind: string, action: Option<A>, confidence: string)
    | Fails(controller: string, kind: string)
    | RetireOld
    | MarkHit(controller: string, kind: string)
    | Evict(controller: string, kind: string)
    | SaveAndRestore

  /** A state written out as lists and read back. */
  ghost predicate SavedAndRestored<A(!new)>(b: State<A>, b': State<A>) {
    exists entryList: seq<Entry<A>>, scarList: seq<Scar> ::
      && ListsEntries(entryList, b.entries) && ListsScars(scarList, b.scars)
      && ListsEntries(entryList, b'.entries) && ListsScars(scarList, b'.scars)
  }

  ghost predicate Next<A(!new)>(opts: Options, b: State<A>, op: Op<A>, now: int, b': State<A>) {
    match op
    case Learn(controller, kind, action, confidence) =>
      exists learned :: RecordNext(opts, b, controller, kind, action, confidence, now, b', learned)
    case Fails(controller, kind) =>
      exists removed, quarantined :: FailNext(opts, b, controller, kind, now, b', removed, quarantined)
    case RetireOld => b' == Retired(opts, b, now)
    case MarkHit(controller, kind) => b' == Hit(b, Key(controller, kind), now)
    case Evict(controller, kind) => b' == Evicted(b, Key(controller, kind))
    case SaveAndRestore => SavedAndRestored(b, b')
  }

  /** A list determines the map it lists. */
  lemma RestoreGivesBack<A(!new)>(b: State<A>, b': State<A>)
    requires SavedAndRestored(b, b')
    ensures b' == b
  {
    var entryList: seq<Entry<A>>, scarList: seq<Scar> :|
      && ListsEntries(entryList, b.entries) && ListsScars(scarList, b.scars)
      && ListsEntries(entryList, b'.entries) && ListsScars(scarList, b'.scars);
    assert b'.entries == b.entries;
    assert b'.scars == b.scars;
  }

  /** No pair that is barred from learning has anything to replay. */
  ghost predicate Safe<A>(b: State<A>, now: int) {
    forall k | Barred(b, k, now) :: k !in b.entries
  }

  predicate FailsOn<A>(op: Op<A>, k: string) {
    op.Fails? && Key(op.controller, op.kind) == k
  }

  /** A live quarantine keeps its scar, unchanged, through everything but another failure of the same pair. */
  lemma QuarantineSurvivesStep<A(!new)>(opts: Options, b: State<A>, op: Op<A>, now: int, b': State<A>, k: string)
    requires Next(opts, b, op, now, b') && Barred(b, k, now) && !FailsOn(op, k)
    ensures k in b'.scars && b'.scars[k] == b.scars[k]
  {
    match op {
      case Fails(controller, kind) =>
      case SaveAndRestore =>
        RestoreGivesBack(b, b');
      case _ =>
    }
  }

  lemma SafeStep<A(!new)>(opts: Options, b: State<A>, op: Op<A>, now: int, b': State<A>)
    requires Next(opts, b, op, now, b') && Safe(b, now)
    ensures Safe(b', now)
  {
    match op {
      case Learn(controller, kind, action, confidence) =>
        LearnOnlyUnbarred(opts, b, op, now, b');
      case Fails(controller, kind) =>
      case SaveAndRestore =>
        RestoreGivesBack(b, b');
      case _ =>
    }
  }

  /** Learning leaves the scars alone and adds no entry for a barred pair. */
  lemma LearnOnlyUnbarred<A(!new)>(opts: Options, b: State<A>, op: Op<A>, now: int, b': State<A>)
    requires op.Learn? && Next(opts, b, op, now, b')
    ensures b'.scars == b.scars
    ensures forall k | k in b'.entries && k !in b.entries :: k == Key(op.controller, op.kind) && !Barred(b, k, now)
  {
  }

  // ----- Runs -----

  ghost predicate StepAt<A(!new)>(opts: Options, states: seq<State<A>>, ops: seq<Op<A>>, times: seq<int>, i: nat)
    requires i < |ops| == |times| && |states| == |ops| + 1
  {
    Next(opts, states[i], ops[i], times[i], states[i + 1])
  }

  /** What has been done to a book, when, and what it held in between. */
  datatype Diary<A> = Diary(states: seq<State<A>>, ops: seq<Op<A>>, times: seq<int>)

  /** Every page follows from the one before, and the last is what the book holds at `now`. */
  ghost predicate Kept<A(!new)>(opts: Options, d: Diary<A>, b: State<A>, now: int) {
    && |d.states| == |d.ops| + 1 && |d.times| == |d.ops| && d.states[|d.ops|] == b
    && (forall i, j | 0 <= i < j < |d.times| :: d.times[i] <= d.times[j])
    && (forall i | 0 <= i < |d.times| :: d.times[i] <= now)
    && forall i: nat | i < |d.ops| :: StepAt(opts, d.states, d.ops, d.times, i)
  }

  function Entered<A>(d: Diary<A>, op: Op<A>, now: int, b: State<A>): Diary<A> {
    Diary(d.states + [b], d.ops + [op], d.times + [now])
  }

  lemma EnteringKeeps<A(!new)>(opts: Options, d: Diary<A>, b: State<A>, op: Op<A>, now: int, b': State<A>)
    requires Kept(opts, d, b, now) && Next(opts, b, op, now, b')
    ensures Kept(opts, Entered(d, op, now, b'), b', now)
  {
    hide Next;
    var d' := Entered(d, op, now, b');
    forall i: nat | i < |d'.ops|
      ensures StepAt(opts, d'.states, d'.ops, d'.times, i)
    {
      if i < |d.ops| {
        assert StepAt(opts, d.states, d.ops, d.times, i);
      }
    }
  }

  lemma KeptLater<A(!new)>(opts: Options, d: Diary<A>, b: State<A>, before: int, now: int)
    requires Kept(opts, d, b, before) && before <= now
    ensures Kept(opts, d, b, now)
  {
    hide StepAt;
  }

  lemma NewDiary<A(!new)>(opts: Options, b: State<A>, now: int)
    ensures Kept(opts, Diary([b], [], []), b, now)
  {
  }

  /** A run from an empty book, on a clock that never goes back. */
  ghost predicate IsRun<A(!new)>(opts: Options, states: seq<State<A>>, ops: seq<Op<A>>, times: seq<int>) {
    && |states| == |ops| + 1 && |times| == |ops|
    && states[0] == State(map[], map[])
    && (forall i, j | 0 <= i < j < |times| :: times[i] <= times[j])
    && forall i: nat | i < |ops| :: StepAt(opts, states, ops, times, i)
  }

  /** At any time from the run's n-th operation on, no quarantined pair has a replayable entry. */
  lemma {:induction false} QuarantinedNeverReplayable<A(!new)>(
    opts: Options, states: seq<State<A>>, ops: seq<Op<A>>, times: seq<int>, n: nat, now: int)
    requires IsRun(opts, states, ops, times) && n < |states|
    requires n > 0 ==> times[n - 1] <= now
    ensures Safe(states[n], now)
  {
    if n > 0 {
      var at := times[n - 1];
      assert n > 1 ==> times[n - 2] <= at;
      QuarantinedNeverReplayable(opts, states, ops, times, n - 1, at);
      assert StepAt(opts, states, ops, times, n - 1);
      SafeStep(opts, states[n - 1], ops[n - 1], at, states[n]);
      assert forall k | Barred(states[n], k, now) :: Barred(states[n], k, at);
    }
  }

  /** Until it lifts, a quarantine outlives every stretch of a run without another failure of its pair. */
  lemma {:induction false} QuarantineOutlivesRun<A(!new)>(
    opts: Options, states: seq<State<A>>, ops: seq<Op<A>>, times: seq<int>, from: nat, n: nat, k: string)
    requires IsRun(opts, states, ops, times) && from <= n < |states|
    requires k in states[from].scars && states[from].scars[k].quarantinedUntil.Some?
    requires forall i | from <= i < n :: times[i] < states[from].scars[k].quarantinedUntil.value && !FailsOn(ops[i], k)
    ensures k in states[n].scars && states[n].scars[k] == states[from].scars[k]
  {
    if from < n {
      QuarantineOutlivesRun(opts, states, ops, times, from, n - 1, k);
      assert StepAt(opts, states, ops, times, n - 1);
      QuarantineSurvivesStep(opts, states[n - 1], ops[n - 1], times[n - 1], states[n], k);
    }
  }

  lemma SubmapSize<V>(small: map<string, V>, large: map<string, V>)
    requires small.Keys <= large.Keys
    ensures |small| <= |large|
  {
    SubsetSize(small.Keys, large.Keys);
  }

  lemma {:induction false} SubsetSize(small: set<string>, large: set<string>)
    requires small <= large
    ensures |small| <= |large|
  {
    if small != {} {
      var k :| k in small;
      SubsetSize(small - {k}, large - {k});
    }
  }

  lemma LearningStaysBounded<A(!new)>(opts: Options, b: State<A>, op: Op<A>, now: int, b': State<A>)
    requires op.Learn? && opts.maxEntries > 0 && |b.entries| <= opts.maxEntries && Next(opts, b, op, now, b')
    ensures |b'.entries| <= opts.maxEntries
  {
    var k := Key(op.controller, op.kind);
    if k !in b.entries && b' != b {
      var room :| MadeRoom(opts, b.entries, room) && b'.entries == room[k := b'.entries[k]];
      assert |room| < opts.maxEntries;
    }
  }

  lemma EntriesStayBounded<A(!new)>(opts: Options, b: State<A>, op: Op<A>, now: int, b': State<A>)
    requires opts.maxEntries > 0 && |b.entries| <= opts.maxEntries && Next(opts, b, op, now, b')
    ensures |b'.entries| <= opts.maxEntries
  {
    match op {
      case Learn(controller, kind, action, confidence) =>
        LearningStaysBounded(opts, b, op, now, b');
      case SaveAndRestore =>
        RestoreGivesBack(b, b');
      case _ =>
        SubmapSize(b'.entries, b.entries);
    }
  }

  /** The book never outgrows its bound. */
  lemma {:induction false} BookStaysBounded<A(!new)>(
    opts: Options, states: seq<State<A>>, ops: seq<Op<A>>, times: seq<int>, n: nat)
    requires opts.maxEntries > 0 && IsRun(opts, states, ops, times) && n < |states|
    ensures |states[n].entries| <= opts.maxEntries
  {
    if n > 0 {
      BookStaysBounded(opts, states, ops, times, n - 1);
      assert StepAt(opts, states, ops, times, n - 1);
      EntriesStayBounded(opts, states[n - 1], ops[n - 1], times[n - 1], states[n]);
    }
  }

  // ----- Does anything ever shorten a quarantine? -----

  predicate KeepsQuarantineAt<A>(b: State<A>, now: int, b': State<A>, k: string) {
    Barred(b, k, now) ==>
      && k in b'.scars && b'.scars[k].quarantinedUntil.Some?
      && b.scars[k].quarantinedUntil.value <= b'.scars[k].quarantinedUntil.value
  }

  /** No quarantine that was live at `now` ends earlier than it would have. */
  ghost predicate KeepsQuarantines<A>(b: State<A>, now: int, b': State<A>) {
    forall k :: KeepsQuarantineAt(b, now, b', k)
  }

  ghost predicate NeverShortens<A(!new)>(states: seq<State<A>>, ops: seq<Op<A>>, times: seq<int>)
    requires |ops| == |times| && |states| == |ops| + 1
  {
    forall i: nat {:trigger KeepsQuarantines(states[i], times[i], states[i + 1])} | i < |ops| ::
      KeepsQuarantines(states[i], times[i], states[i + 1])
  }

  /** How a scar's end of quarantine relates to its last failure. */
  predicate ScarInv(opts: Options, s: Scar) {
    && s.failures >= 1
    && (s.failures >= opts.maxFailures ==> s.quarantinedUntil == Some(s.lastFailure + Wait(opts, s.failures)))
    && (s.failures < opts.maxFailures && s.quarantinedUntil.Some? ==>
          s.quarantinedUntil.value + opts.failureDecay + 1 <= s.lastFailure + MAX_QUARANTINE)
  }

  lemma {:induction false} Pow2Grows(m: nat, n: nat)
    requires m <= n
    ensures Pow2(m) <= Pow2(n) && n < Pow2(n)
  {
    if n > m {
      Pow2Grows(m, n - 1);
    } else if n > 0 {
      Pow2Grows(n - 1, n - 1);
    }
  }

  /** Each further failure of a streak waits at least as long as the last. */
  lemma WaitsBackOff(opts: Options, f: nat, f': nat)
    requires opts.Filled() && opts.maxFailures <= f <= f'
    ensures 0 < Wait(opts, f) <= Wait(opts, f') <= MAX_QUARANTINE
  {
    Pow2Grows(f - opts.maxFailures, f' - opts.maxFailures);
    Pow2Grows(0, f - opts.maxFailures);
    MulMonotone(opts.quarantineFor, Pow2(f - opts.maxFailures), Pow2(f' - opts.maxFailures));
    MulMonotone(opts.quarantineFor, 1, Pow2(f - opts.maxFailures));
  }

  /** The first wait is the configured one; one more failure waits the lesser of twice as long and a fortnight. */
  lemma WaitDoubles(opts: Options, f: nat)
    requires opts.Filled() && f >= opts.maxFailures
    ensures Wait(opts, f) <= 1_209_600_000_000_000
    ensures f == opts.maxFailures ==>
      Wait(opts, f) == if opts.quarantineFor <= 1_209_600_000_000_000 then opts.quarantineFor else 1_209_600_000_000_000
    ensures Wait(opts, f + 1) ==
      if 2 * Wait(opts, f) <= 1_209_600_000_000_000 then 2 * Wait(opts, f) else 1_209_600_000_000_000
  {
    var doublings := f - opts.maxFailures;
    assert f + 1 - opts.maxFailures == doublings + 1;
    assert opts.quarantineFor * (2 * Pow2(doublings)) == 2 * (opts.quarantineFor * Pow2(doublings));
    WaitsBackOff(opts, f, f + 1);
  }

  lemma MulMonotone(a: int, x: int, y: int)
    requires a >= 0 && x <= y
    ensures a * x <= a * y
  {
  }

  lemma ScarInvStep(opts: Options, s: Option<Scar>, controller: string, kind: string, now: int)
    requires opts.Filled() && (s.Some? ==> ScarInv(opts, s.value) && s.value.lastFailure <= now)
    ensures ScarInv(opts, Scarred(opts, s, controller, kind, now))
  {
    if s.Some? && s.value.failures >= opts.maxFailures {
      WaitsBackOff(opts, s.value.failures, s.value.failures);
    }
  }

  /** Every scar is as its failures left it, and none lies in the future. */
  ghost predicate ScarsInv(opts: Options, scars: map<string, Scar>, now: int) {
    forall k {:trigger ScarInv(opts, scars[k])} | k in scars :: ScarInv(opts, scars[k]) && scars[k].lastFailure <= now
  }

  lemma FewerScars(opts: Options, scars: map<string, Scar>, fewer: map<string, Scar>, before: int, now: int)
    requires ScarsInv(opts, scars, before) && before <= now
    requires forall k | k in fewer :: k in scars && fewer[k] == scars[k]
    ensures ScarsInv(opts, fewer, now)
  {
    forall k | k in fewer
      ensures ScarInv(opts, fewer[k]) && fewer[k].lastFailure <= now
    {
      assert ScarInv(opts, scars[k]);
    }
  }

  lemma OneMoreScar(opts: Options, scars: map<string, Scar>, k: string, was: Option<Scar>, controller: string,
                    kind: string, now: int)
    requires opts.Filled() && ScarsInv(opts, scars, now)
    requires was.Some? ==> k in scars && scars[k] == was.value
    ensures ScarsInv(opts, scars[k := Scarred(opts, was, controller, kind, now)], now)
  {
    var after := scars[k := Scarred(opts, was, controller, kind, now)];
    if was.Some? {
      assert ScarInv(opts, scars[k]);
    }
    ScarInvStep(opts, was, controller, kind, now);
    forall j | j in after
      ensures ScarInv(opts, after[j]) && after[j].lastFailure <= now
    {
      if j != k {
        assert ScarInv(opts, scars[j]);
      }
    }
  }

  lemma FailureKeepsScarsInv<A(!new)>(opts: Options, b: State<A>, op: Op<A>, before: int, now: int, b': State<A>)
    requires opts.Filled() && op.Fails? && Next(opts, b, op, now, b')
    requires ScarsInv(opts, b.scars, before) && before <= now
    ensures ScarsInv(opts, b'.scars, now)
  {
    var k := Key(op.controller, op.kind);
    FewerScars(opts, b.scars, b.scars, before, now);
    if k in b.scars {
      OneMoreScar(opts, b.scars, k, Some(b.scars[k]), op.controller, op.kind, now);
    } else {
      var room :| MadeScarRoom(opts, b.scars, now, room)
        && b'.scars == room[k := Scarred(opts, None, op.controller, op.kind, now)];
      FewerScars(opts, b.scars, room, before, now);
      OneMoreScar(opts, room, k, None, op.controller, op.kind, now);
    }
  }

  lemma ScarsInvStep<A(!new)>(opts: Options, b: State<A>, op: Op<A>, before: int, now: int, b': State<A>)
    requires opts.Filled() && Next(opts, b, op, now, b')
    requires ScarsInv(opts, b.scars, before) && before <= now
    ensures ScarsInv(opts, b'.scars, now)
  {
    match op {
      case Fails(controller, kind) =>
        FailureKeepsScarsInv(opts, b, op, before, now, b');
      case Learn(controller, kind, action, confidence) =>
        LearnOnlyUnbarred(opts, b, op, now, b');
        FewerScars(opts, b.scars, b'.scars, before, now);
      case SaveAndRestore =>
        RestoreGivesBack(b, b');
        FewerScars(opts, b.scars, b'.scars, before, now);
      case _ =>
        FewerScars(opts, b.scars, b'.scars, before, now);
    }
  }

  /** Evicted, retired, forgotten and restored in between or not: in every reachable state every scar keeps it. */
  lemma {:induction false} ScarsKeepInv<A(!new)>(
    opts: Options, states: seq<State<A>>, ops: seq<Op<A>>, times: seq<int>, n: nat, now: int)
    requires opts.Filled() && IsRun(opts, states, ops, times) && n < |states|
    requires n > 0 ==> times[n - 1] <= now
    ensures ScarsInv(opts, states[n].scars, now)
  {
    if n > 0 {
      var at := times[n - 1];
      assert n > 1 ==> times[n - 2] <= at;
      ScarsKeepInv(opts, states, ops, times, n - 1, at);
      assert StepAt(opts, states, ops, times, n - 1);
      ScarsInvStep(opts, states[n - 1], ops[n - 1], at, at, states[n]);
      FewerScars(opts, states[n].scars, states[n].scars, at, now);
    }
  }

  lemma OneMoreKeeps(opts: Options, s: Scar, controller: string, kind: string, now: int)
    requires opts.Filled() && ScarInv(opts, s) && s.lastFailure <= now
    requires opts.failureDecay + opts.quarantineFor + 1 >= MAX_QUARANTINE
    ensures var after := Scarred(opts, Some(s), controller, kind, now);
      s.quarantinedUntil.Some? ==>
        after.quarantinedUntil.Some? && s.quarantinedUntil.value <= after.quarantinedUntil.value
  {
    if s.failures >= opts.maxFailures {
      WaitsBackOff(opts, s.failures, s.failures + 1);
    }
    assert Wait(opts, opts.maxFailures) == Min(opts.quarantineFor, MAX_QUARANTINE);
  }

  lemma StepKeepsQuarantines<A(!new)>(opts: Options, b: State<A>, op: Op<A>, now: int, b': State<A>)
    requires opts.Filled() && Next(opts, b, op, now, b') && ScarsInv(opts, b.scars, now)
    requires opts.failureDecay + opts.quarantineFor + 1 >= MAX_QUARANTINE
    ensures KeepsQuarantines(b, now, b')
  {
    forall k
      ensures KeepsQuarantineAt(b, now, b', k)
    {
      if Barred(b, k, now) {
        if FailsOn(op, k) {
          assert ScarInv(opts, b.scars[k]);
          OneMoreKeeps(opts, b.scars[k], op.controller, op.kind, now);
        } else {
          QuarantineSurvivesStep(opts, b, op, now, b', k);
        }
      }
    }
  }

  lemma LongDecayNeverShortens<A(!new)>(opts: Options, states: seq<State<A>>, ops: seq<Op<A>>, times: seq<int>)
    requires opts.Filled() && IsRun(opts, states, ops, times)
    requires opts.failureDecay + opts.quarantineFor + 1 >= MAX_QUARANTINE
    ensures NeverShortens(states, ops, times)
  {
    forall i: nat | i < |ops|
      ensures KeepsQuarantines(states[i], times[i], states[i + 1])
    {
      assert i > 0 ==> times[i - 1] <= times[i];
      ScarsKeepInv(opts, states, ops, times, i, times[i]);
      assert StepAt(opts, states, ops, times, i);
      StepKeepsQuarantines(opts, states[i], ops[i], times[i], states[i + 1]);
    }
  }

  // ----- A run that does -----

  /** One pair's scar after failing at each of these times, nothing else touching it. */
  function AfterFailures(opts: Options, controller: string, kind: string, times: seq<int>): Option<Scar> {
    if times == [] then None
    else Some(Scarred(opts, AfterFailures(opts, controller, kind, times[..|times| - 1]), controller, kind,
                      times[|times| - 1]))
  }

  predicate NonDecreasing(times: seq<int>) {
    forall i, j | 0 <= i < j < |times| :: times[i] <= times[j]
  }

  /** The book after only that pair has failed, at each of these times. */
  function OnlyFailed<A>(opts: Options, times: seq<int>): State<A> {
    if times == [] then State(map[], map[])
    else State(map[], map[Key("", "") := AfterFailures(opts, "", "", times).value])
  }

  lemma FailureStep<A(!new)>(opts: Options, times: seq<int>, at: int)
    requires opts.Filled()
    ensures Next<A>(opts, OnlyFailed(opts, times), Fails("", ""), at, OnlyFailed(opts, times + [at]))
  {
    var b, b': State<A> := OnlyFailed(opts, times), OnlyFailed(opts, times + [at]);
    var k, none: map<string, Scar> := Key("", ""), map[];
    AfterOneMore(opts, times, at);
    assert times == [] ==> MadeScarRoom(opts, none, at, none);
    assert b'.entries == b.entries - {k};
    assert FailNext(opts, b, "", "", at, b', false, b'.scars[k].failures >= opts.maxFailures);
  }

  lemma FailuresAreARun<A(!new)>(opts: Options, times: seq<int>) returns (states: seq<State<A>>, ops: seq<Op<A>>)
    requires opts.Filled() && NonDecreasing(times)
    ensures IsRun(opts, states, ops, times)
    ensures forall i | 0 <= i <= |times| :: states[i] == OnlyFailed<A>(opts, times[..i])
  {
    states := seq(|times| + 1, i requires 0 <= i <= |times| => OnlyFailed<A>(opts, times[..i]));
    ops := seq(|times|, i => Fails("", ""));
    forall i: nat | i < |ops|
      ensures StepAt(opts, states, ops, times, i)
    {
      FailureStep<A>(opts, times[..i], times[i]);
      assert times[..i + 1] == times[..i] + [times[i]];
    }
  }

  /** `n` failures at one time, after those already in `times`. */
  function Repeat(times: seq<int>, n: nat, at: int): seq<int> {
    if n == 0 then times else Repeat(times, n - 1, at) + [at]
  }

  lemma {:induction false} RepeatSorted(times: seq<int>, n: nat, at: int)
    requires NonDecreasing(times) && forall i | 0 <= i < |times| :: times[i] <= at
    ensures NonDecreasing(Repeat(times, n, at))
    ensures forall i | 0 <= i < |Repeat(times, n, at)| :: Repeat(times, n, at)[i] <= at
  {
    if n > 0 {
      RepeatSorted(times, n - 1, at);
    }
  }

  lemma AfterOneMore(opts: Options, times: seq<int>, at: int)
    ensures AfterFailures(opts, "", "", times + [at])
         == Some(Scarred(opts, AfterFailures(opts, "", "", times), "", "", at))
  {
    assert (times + [at])[..|times|] == times;
  }

  /** A first streak, all at time zero. */
  lemma {:induction false} FirstStreak(opts: Options, n: nat)
    requires opts.Filled() && n > 0
    ensures var s := AfterFailures(opts, "", "", Repeat([], n, 0));
      s.Some? && s.value.failures == n && s.value.lastFailure == 0
      && (n >= opts.maxFailures ==> s.value.quarantinedUntil == Some(Wait(opts, n)))
  {
    AfterOneMore(opts, Repeat([], n - 1, 0), 0);
    if n > 1 {
      FirstStreak(opts, n - 1);
    }
  }

  /** A second streak, once the first has decayed: it starts counting afresh. */
  lemma {:induction false} SecondStreak(opts: Options, times: seq<int>, at: int, n: nat, until: int)
    requires opts.Filled() && 0 < n < opts.maxFailures
    requires var s := AfterFailures(opts, "", "", times);
      s.Some? && at - s.value.lastFailure > opts.failureDecay && s.value.quarantinedUntil == Some(until)
    ensures var s := AfterFailures(opts, "", "", Repeat(times, n, at));
      s.Some? && s.value.failures == n && s.value.lastFailure == at && s.value.quarantinedUntil == Some(until)
  {
    AfterOneMore(opts, Repeat(times, n - 1, at), at);
    if n > 1 {
      SecondStreak(opts, times, at, n - 1, until);
    }
  }

  lemma LongestWait(opts: Options, ceiling: nat) returns (n: nat)
    requires opts.Filled() && ceiling == MAX_QUARANTINE
    ensures n >= opts.maxFailures && n > 0 && Wait(opts, n) == ceiling
  {
    n := opts.maxFailures + ceiling;
    Pow2Grows(0, ceiling);
    MulMonotone(Pow2(ceiling), 1, opts.quarantineFor);
  }

  /**
   * The state just before the shortening failure: the longest quarantine live, a
   * decayed streak one short of its own.
   */
  lemma BeforeShortening(opts: Options, n: nat, at: int, until: int)
    requires opts.Filled() && n >= opts.maxFailures && Wait(opts, n) == until && at > opts.failureDecay
    ensures var s := AfterFailures(opts, "", "", Repeat(Repeat([], n, 0), opts.maxFailures - 1, at));
      && s.Some? && s.value.quarantinedUntil == Some(until)
      && SoFar(opts, s, "", "", at).failures == opts.maxFailures - 1
  {
    FirstStreak(opts, n);
    if opts.maxFailures > 1 {
      SecondStreak(opts, Repeat([], n, 0), at, opts.maxFailures - 1, until);
    }
  }

  /** The failure that completes the new streak sets its first wait, well before the old quarantine's end. */
  lemma ShorteningFailure(opts: Options, s: Scar, at: int)
    requires opts.Filled() && at == opts.failureDecay + 1 && s.quarantinedUntil == Some(MAX_QUARANTINE)
    requires opts.failureDecay + opts.quarantineFor + 1 < MAX_QUARANTINE
    requires SoFar(opts, Some(s), "", "", at).failures == opts.maxFailures - 1
    ensures s.Quarantined(at)
    ensures Scarred(opts, Some(s), "", "", at).quarantinedUntil == Some(at + opts.quarantineFor)
  {
    assert Wait(opts, opts.maxFailures) == opts.quarantineFor;
  }

  /** The longest quarantine, then a new streak's first one as soon as the failures behind it have decayed. */
  lemma ShorteningTimes(opts: Options) returns (lead: seq<int>, at: int)
    requires opts.Filled()
    requires opts.failureDecay + opts.quarantineFor + 1 < MAX_QUARANTINE
    ensures NonDecreasing(lead + [at]) && lead != []
    ensures var before := AfterFailures(opts, "", "", lead).value;
      var after := AfterFailures(opts, "", "", lead + [at]).value;
      && before.Quarantined(at) && after.quarantinedUntil.Some?
      && after.quarantinedUntil.value < before.quarantinedUntil.value
  {
    var n := LongestWait(opts, MAX_QUARANTINE);
    at := opts.failureDecay + 1;
    var first := Repeat([], n, 0);
    lead := Repeat(first, opts.maxFailures - 1, at);
    BeforeShortening(opts, n, at, MAX_QUARANTINE);
    AfterOneMore(opts, lead, at);
    RepeatSorted([], n, 0);
    RepeatSorted(first, opts.maxFailures, at);
    ShorteningFailure(opts, AfterFailures(opts, "", "", lead).value, at);
  }

  lemma ShortDecayShortens<A(!new)>(opts: Options)
    returns (states: seq<State<A>>, ops: seq<Op<A>>, times: seq<int>)
    requires opts.Filled()
    requires opts.failureDecay + opts.quarantineFor + 1 < MAX_QUARANTINE
    ensures IsRun(opts, states, ops, times) && !NeverShortens(states, ops, times)
  {
    var lead, at := ShorteningTimes(opts);
    times := lead + [at];
    states, ops := FailuresAreARun(opts, times);
    var i: nat := |lead|;
    assert times[..i] == lead && times[..i + 1] == times;
    assert !KeepsQuarantineAt(states[i], times[i], states[i + 1], Key("", ""));
    assert !KeepsQuarantines(states[i], times[i], states[i + 1]);
  }

  /**
   * In every run, whatever is learned, retired, forgotten or restored in between, no
   * step brings the end of a live quarantine forward: exactly when a decayed streak's
   * first quarantine still reaches as far as the longest one could.
   */
  lemma NeverShortensIff<A(!new)>(opts: Options)
    requires opts.Filled()
    ensures (forall states: seq<State<A>>, ops: seq<Op<A>>, times | IsRun(opts, states, ops, times) ::
               NeverShortens(states, ops, times))
      <==> opts.failureDecay + opts.quarantineFor + 1 >= MAX_QUARANTINE
  {
    if opts.failureDecay + opts.quarantineFor + 1 >= MAX_QUARANTINE {
      forall states: seq<State<A>>, ops: seq<Op<A>>, times | IsRun(opts, states, ops, times)
        ensures NeverShortens(states, ops, times)
      {
        LongDecayNeverShortens(opts, states, ops, times);
      }
    } else {
      var states: seq<State<A>>, ops: seq<Op<A>>, times := ShortDecayShortens(opts);
    }
  }

  /** The shipped defaults do not meet that condition. */
  lemma DefaultsCanShorten<A(!new)>()
    ensures exists states: seq<State<A>>, ops: seq<Op<A>>, times ::
      IsRun(Options(0, 0, 0, 0, 0).WithDefaults(), states, ops, times) && !NeverShortens(states, ops, times)
  {
    var states: seq<State<A>>, ops: seq<Op<A>>, times := ShortDecayShortens(Options(0, 0, 0, 0, 0).WithDefaults());
  }
}
