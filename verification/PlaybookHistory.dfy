/** What an entry or a scar says, in terms of the operations of the run that led to it. */
module PlaybookHistory {
  import opened Prelude
  import opened Playbook
  import opened PlaybookTheorems

  predicate TeachesOn<A>(op: Op<A>, k: string) {
    op.Learn? && op.action.Some? && Key(op.controller, op.kind) == k
  }

  predicate HitsOn<A>(op: Op<A>, k: string) {
    op.MarkHit? && Key(op.controller, op.kind) == k
  }

  /** What an operation can be to a pair's memory. */
  datatype Part = Taught | Replayed | Failed

  predicate PlaysPart<A>(op: Op<A>, part: Part, k: string) {
    match part
    case Taught => TeachesOn(op, k)
    case Replayed => HitsOn(op, k)
    case Failed => FailsOn(op, k)
  }

  function Times<A>(ops: seq<Op<A>>, part: Part, from: nat, n: nat, k: string): set<nat>
    requires n <= |ops|
  {
    set i: nat | from <= i < n && PlaysPart(ops[i], part, k)
  }

  /** One more operation adds itself to what it counts for, and to nothing else. */
  lemma TimesSnoc<A>(ops: seq<Op<A>>, part: Part, from: nat, n: nat, k: string)
    requires from <= n < |ops|
    ensures |Times(ops, part, from, n + 1, k)|
         == |Times(ops, part, from, n, k)| + (if PlaysPart(ops[n], part, k) then 1 else 0)
    ensures from == n ==> |Times(ops, part, from, n, k)| == 0
  {
    hide PlaysPart;
    var before := Times(ops, part, from, n, k);
    assert n !in before;
    assert Times(ops, part, from, n + 1, k) == if PlaysPart(ops[n], part, k) then before + {n} else before;
    if from == n {
      assert before == {};
    }
  }

  // ----- Entries -----

  /** An entry after a step was taught in it, or was there before and at most hit. */
  lemma EntryStep<A(!new)>(opts: Options, b: State<A>, op: Op<A>, now: int, b': State<A>, k: string)
    requires Next(opts, b, op, now, b') && Safe(b, now) && k in b'.entries
    ensures var was := if k in b.entries then Some(b.entries[k]) else None;
      if TeachesOn(op, k) then
        LearnedAs(was, if was.Some? then was.value.controller else op.controller,
                  if was.Some? then was.value.kind else op.kind, op.action.value, op.confidence, now, b'.entries[k])
      else
        && was.Some?
        && b'.entries[k] == if HitsOn(op, k) then was.value.(hits := was.value.hits + 1, lastHit := Some(now))
                            else was.value
  {
    match op {
      case Learn(controller, kind, action, confidence) =>
        if k in b.entries && TeachesOn(op, k) {
          assert !Barred(b, k, now);
        }
      case SaveAndRestore =>
        RestoreGivesBack(b, b');
      case _ =>
    }
  }

  /** Admitted by the operation at `from`, there ever since, and last taught by the one at `last`. */
  ghost predicate TaughtSince<A(!new)>(states: seq<State<A>>, ops: seq<Op<A>>, times: seq<int>, n: nat, k: string,
                                       from: nat, last: nat)
    requires n < |states| == |ops| + 1 && |times| == |ops|
  {
    && from <= last < n && k in states[n].entries
    && k !in states[from].entries && (forall j | from < j <= n :: k in states[j].entries)
    && TeachesOn(ops[from], k) && TeachesOn(ops[last], k) && (forall j | last < j < n :: !TeachesOn(ops[j], k))
    && var e := states[n].entries[k];
       && e.controller == ops[from].controller && e.kind == ops[from].kind && e.recorded == times[from]
       && Some(e.action) == ops[last].action && e.confidence == ops[last].confidence && e.lastVerified == times[last]
       && e.verifications == |Times(ops, Taught, from, n, k)| && e.hits == |Times(ops, Replayed, from, n, k)|
  }

  /**
   * In every run an entry is what its pair was last taught, dated then; it has been
   * there since it was first taught, and counts how often it was taught and hit since.
   */
  lemma {:induction false} EntryIsLatestTaught<A(!new)>(
    opts: Options, states: seq<State<A>>, ops: seq<Op<A>>, times: seq<int>, n: nat, k: string)
    requires IsRun(opts, states, ops, times) && n < |states| && k in states[n].entries
    ensures exists from, last :: TaughtSince(states, ops, times, n, k, from, last)
  {
    hide LearnedAs, Next;
    var m := n - 1;
    var at := times[m];
    assert m > 0 ==> times[m - 1] <= at;
    QuarantinedNeverReplayable(opts, states, ops, times, m, at);
    assert StepAt(opts, states, ops, times, m);
    EntryStep(opts, states[m], ops[m], at, states[n], k);
    if k in states[m].entries {
      EntryIsLatestTaught(opts, states, ops, times, m, k);
      var from, last :| TaughtSince(states, ops, times, m, k, from, last);
      TaughtOnceMore(states, ops, times, m, k, from, last);
    } else {
      TaughtAtFirst(states, ops, times, m, k);
    }
  }

  lemma TaughtOnceMore<A(!new)>(states: seq<State<A>>, ops: seq<Op<A>>, times: seq<int>, m: nat, k: string, from: nat,
                                last: nat)
    requires m < |ops| == |times| && |states| == |ops| + 1
    requires TaughtSince(states, ops, times, m, k, from, last) && k in states[m + 1].entries
    requires var e, e' := states[m].entries[k], states[m + 1].entries[k];
      if TeachesOn(ops[m], k)
      then LearnedAs(Some(e), e.controller, e.kind, ops[m].action.value, ops[m].confidence, times[m], e')
      else e' == if HitsOn(ops[m], k) then e.(hits := e.hits + 1, lastHit := Some(times[m])) else e
    ensures TaughtSince(states, ops, times, m + 1, k, from, if TeachesOn(ops[m], k) then m else last)
  {
    hide Times;
    TimesSnoc(ops, Taught, from, m, k);
    TimesSnoc(ops, Replayed, from, m, k);
  }

  lemma TaughtAtFirst<A(!new)>(states: seq<State<A>>, ops: seq<Op<A>>, times: seq<int>, m: nat, k: string)
    requires m < |ops| == |times| && |states| == |ops| + 1
    requires k !in states[m].entries && k in states[m + 1].entries && TeachesOn(ops[m], k)
    requires LearnedAs(None, ops[m].controller, ops[m].kind, ops[m].action.value, ops[m].confidence, times[m],
                       states[m + 1].entries[k])
    ensures TaughtSince(states, ops, times, m + 1, k, m, m)
  {
    hide Times;
    TimesSnoc(ops, Taught, m, m, k);
    TimesSnoc(ops, Replayed, m, m, k);
  }

  /** What learning another fix displaces was confirmed no later than anything that stays, in a book that was full. */
  lemma DisplacedIsOldest<A(!new)>(opts: Options, states: seq<State<A>>, ops: seq<Op<A>>, times: seq<int>, i: nat,
                                   k: string)
    requires IsRun(opts, states, ops, times) && i < |ops| && ops[i].Learn?
    requires k in states[i].entries && k !in states[i + 1].entries
    ensures |states[i].entries| >= opts.maxEntries
    ensures forall j | j in states[i].entries && j in states[i + 1].entries ::
      states[i].entries[k].lastVerified <= states[i].entries[j].lastVerified
    ensures forall j | j in states[i].entries && j != k :: j in states[i + 1].entries
  {
    hide LearnedAs;
    assert StepAt(opts, states, ops, times, i);
  }

  // ----- Scars -----

  /** One failure's count, date and quarantine, from the scar there was. */
  predicate CountsFailure(opts: Options, was: Option<Scar>, now: int, s: Scar) {
    var continuing := was.Some? && now - was.value.lastFailure <= opts.failureDecay;
    && s.lastFailure == now && s.failures == (if continuing then was.value.failures + 1 else 1)
    && s.quarantinedUntil ==
         if s.failures >= opts.maxFailures then Some(now + Wait(opts, s.failures))
         else if was.Some? then was.value.quarantinedUntil else None
  }

  lemma ScarAddedStep(opts: Options, before: map<string, Scar>, added: string, controller: string, kind: string,
                      now: int, after: map<string, Scar>, k: string)
    requires ScarAdded(opts, before, added, controller, kind, now, after) && k in after
    ensures if k == added then CountsFailure(opts, if k in before then Some(before[k]) else None, now, after[k])
            else k in before && after[k] == before[k]
  {
    hide Wait, IsStalest;
  }

  /**
   * A failure counts one more of its pair's streak, or starts a new one if the last is
   * long past; at the threshold it earns the wait for so many failures. Nothing else
   * changes a scar.
   */
  lemma ScarStep<A(!new)>(opts: Options, b: State<A>, op: Op<A>, now: int, b': State<A>, k: string)
    requires Next(opts, b, op, now, b') && k in b'.scars
    ensures var was := if k in b.scars then Some(b.scars[k]) else None;
      if FailsOn(op, k) then CountsFailure(opts, was, now, b'.scars[k]) else was == Some(b'.scars[k])
  {
    hide CountsFailure, ScarAdded;
    match op {
      case Fails(controller, kind) =>
        ScarAddedStep(opts, b.scars, Key(controller, kind), controller, kind, now, b'.scars, k);
      case SaveAndRestore =>
        RestoreGivesBack(b, b');
      case _ =>
    }
  }

  /**
   * What a failure of another pair displaces is not quarantined, and no pair that is
   * not either failed longer ago.
   */
  lemma DisplacedIsStalest<A(!new)>(opts: Options, states: seq<State<A>>, ops: seq<Op<A>>, times: seq<int>, i: nat,
                                    k: string)
    requires IsRun(opts, states, ops, times) && i < |ops| && ops[i].Fails?
    requires k in states[i].scars && k !in states[i + 1].scars
    ensures |states[i].scars| >= opts.maxEntries && !Barred(states[i], k, times[i])
    ensures forall j | j in states[i].scars && !Barred(states[i], j, times[i]) ::
      states[i].scars[k].lastFailure <= states[i].scars[j].lastFailure
    ensures forall j | j in states[i].scars && j != k :: j in states[i + 1].scars
  {
    hide Scarred;
    assert StepAt(opts, states, ops, times, i);
  }

  /** The pair has failed at `first` after none lately, since then never after a long pause, and last at `last`. */
  ghost predicate StreakSince<A(!new)>(opts: Options, states: seq<State<A>>, ops: seq<Op<A>>, times: seq<int>, n: nat,
                                       k: string, first: nat, last: nat)
    requires n < |states| == |ops| + 1 && |times| == |ops|
  {
    && first <= last < n && (forall j | first < j <= n :: k in states[j].scars)
    && FailsOn(ops[first], k) && FailsOn(ops[last], k) && (forall j | last < j < n :: !FailsOn(ops[j], k))
    && (k in states[first].scars ==> times[first] - states[first].scars[k].lastFailure > opts.failureDecay)
    && (forall j | first < j < n && FailsOn(ops[j], k) ::
          times[j] - states[j].scars[k].lastFailure <= opts.failureDecay)
    && var s := states[n].scars[k];
       s.lastFailure == times[last] && s.failures == |Times(ops, Failed, first, n, k)|
  }

  /** In every run a scar counts exactly its pair's current streak of failures, and is dated by the last of them. */
  lemma {:induction false} ScarIsCurrentStreak<A(!new)>(
    opts: Options, states: seq<State<A>>, ops: seq<Op<A>>, times: seq<int>, n: nat, k: string)
    requires IsRun(opts, states, ops, times) && n < |states| && k in states[n].scars
    ensures exists first, last :: StreakSince(opts, states, ops, times, n, k, first, last)
  {
    hide Next, Wait;
    var m: nat := n - 1;
    assert StepAt(opts, states, ops, times, m);
    ScarStep(opts, states[m], ops[m], times[m], states[n], k);
    if k in states[m].scars {
      ScarIsCurrentStreak(opts, states, ops, times, m, k);
      var first, last :| StreakSince(opts, states, ops, times, m, k, first, last);
      var f, l := StreakGoesOn(opts, states, ops, times, m, k, first, last);
    } else {
      StreakBegins(opts, states, ops, times, m, k);
    }
  }

  lemma StreakGoesOn<A(!new)>(opts: Options, states: seq<State<A>>, ops: seq<Op<A>>, times: seq<int>, m: nat, k: string,
                              first: nat, last: nat)
    returns (f: nat, l: nat)
    requires m < |ops| == |times| && |states| == |ops| + 1
    requires StreakSince(opts, states, ops, times, m, k, first, last) && k in states[m + 1].scars
    requires var s, s' := states[m].scars[k], states[m + 1].scars[k];
      if FailsOn(ops[m], k) then
        && s'.lastFailure == times[m]
        && s'.failures == if times[m] - s.lastFailure <= opts.failureDecay then s.failures + 1 else 1
      else s' == s
    ensures StreakSince(opts, states, ops, times, m + 1, k, f, l)
  {
    hide Times;
    TimesSnoc(ops, Failed, first, m, k);
    if !FailsOn(ops[m], k) {
      f, l := first, last;
    } else if times[m] - states[m].scars[k].lastFailure <= opts.failureDecay {
      f, l := first, m;
    } else {
      f, l := m, m;
      StreakBegins(opts, states, ops, times, m, k);
    }
  }

  lemma StreakBegins<A(!new)>(opts: Options, states: seq<State<A>>, ops: seq<Op<A>>, times: seq<int>, m: nat, k: string)
    requires m < |ops| == |times| && |states| == |ops| + 1 && FailsOn(ops[m], k) && k in states[m + 1].scars
    requires k in states[m].scars ==> times[m] - states[m].scars[k].lastFailure > opts.failureDecay
    requires states[m + 1].scars[k].lastFailure == times[m] && states[m + 1].scars[k].failures == 1
    ensures StreakSince(opts, states, ops, times, m + 1, k, m, m)
  {
    hide Times;
    TimesSnoc(ops, Failed, m, m, k);
  }
}
