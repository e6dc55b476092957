/** What the incident store says about a lifetime's observations, over every run. */
module IncidentTheorems {
  import opened Detect
  import opened HealTypes
  import opened Incident

  /** One observation of an incident's lifetime, with the notice it got. */
  datatype Obs = Obs(p: Problem, at: int, notice: Notice)

  datatype Event =
    | Observe(p: Problem, at: int)
    | Reap(at: int)
    | SetProposal(key: string, blob: Blob, confidence: string)
    | MarkHealed(key: string)
    | SnapshotAndRestore

  /** The store beside the history it should be a function of. */
  datatype Run = Run(open: Contents, logs: map<string, seq<Obs>>, openedCount: nat, resolvedCount: nat)

  const EMPTY := Run(map[], map[], 0, 0)

  function Kinds(log: seq<Obs>): set<Kind> {
    set o | o in log :: o.p.kind
  }

  /** The kinds in the order they first appeared. */
  function FirstSeen(log: seq<Obs>): seq<Kind> {
    if log == [] then []
    else
      var before, last := log[..|log| - 1], log[|log| - 1];
      if last.p.kind in Kinds(before) then FirstSeen(before) else FirstSeen(before) + [last.p.kind]
  }

  /** The notice an observation must get, from its lifetime's history alone. */
  function ExpectedNotice(log: seq<Obs>, i: nat): Notice
    requires i < |log|
  {
    if i == 0 then New
    else if log[i].p.kind !in Kinds(log[..i]) && log[i].at != log[0].at then Update
    else Suppress
  }

  ghost predicate Noticed(log: seq<Obs>) {
    forall i: nat {:trigger ExpectedNotice(log, i)} | i < |log| :: log[i].notice == ExpectedNotice(log, i)
  }

  ghost predicate Correlates(key: string, v: View, log: seq<Obs>) {
    && log != [] && v.key == key
    && v.trigger == log[0].p && v.firstSeen == log[0].at
    && v.lastSeen == log[|log| - 1].at && v.count == |log|
    && v.kinds == FirstSeen(log) && v.kindSet == Kinds(log)
    && Noticed(log)
  }

  ghost predicate AllCorrelate(open: Contents, logs: map<string, seq<Obs>>) {
    forall k {:trigger Correlates(k, open[k], logs[k])} | k in open && k in logs :: Correlates(k, open[k], logs[k])
  }

  ghost predicate Inv(r: Run) {
    && r.logs.Keys == r.open.Keys
    && AllCorrelate(r.open, r.logs)
    && r.openedCount == r.resolvedCount + |r.open|
  }

  ghost predicate ObserveStep(r: Run, p: Problem, at: int, r': Run) {
    var (open, notice) := Observed(r.open, p, at);
    var earlier := if Key(p) in r.open && Key(p) in r.logs then r.logs[Key(p)] else [];
    && r'.open == open
    && r'.logs == r.logs[Key(p) := earlier + [Obs(p, at, notice)]]
    && r'.openedCount == r.openedCount + (if notice.New? then 1 else 0) && r'.resolvedCount == r.resolvedCount
  }

  ghost predicate ReapStep(resolveAfter: int, r: Run, at: int, r': Run) {
    && r'.open == Reaped(r.open, at, resolveAfter)
    && r'.logs == (map k | k in r.logs && k in r'.open :: r.logs[k])
    && r'.openedCount == r.openedCount && r'.resolvedCount == r.resolvedCount + |r.open.Keys - r'.open.Keys|
  }

  ghost predicate RestartStep(r: Run, r': Run) {
    && r' == r.(open := r'.open)
    && exists list :: Lists(list, r.open) && RestoredFrom(r'.open, list)
  }

  ghost predicate Next(resolveAfter: int, r: Run, e: Event, r': Run) {
    match e
    case Observe(p, at) => ObserveStep(r, p, at, r')
    case Reap(at) => ReapStep(resolveAfter, r, at, r')
    case SetProposal(key, a, confidence) => r' == r.(open := WithProposal(r.open, key, a, confidence))
    case MarkHealed(key) => r' == r.(open := WithHeal(r.open, key))
    case SnapshotAndRestore => RestartStep(r, r')
  }

  // ----- Each step -----

  lemma KindsSnoc(log: seq<Obs>, o: Obs)
    ensures Kinds(log + [o]) == Kinds(log) + {o.p.kind}
    ensures FirstSeen(log + [o]) == if o.p.kind in Kinds(log) then FirstSeen(log) else FirstSeen(log) + [o.p.kind]
  {
    assert (log + [o])[..|log|] == log;
    assert forall x | x in log + [o] :: x in log || x == o;
    assert o in log + [o];
    assert forall x | x in log :: x in log + [o];
  }

  lemma SeenAgainCorrelates(key: string, v: View, log: seq<Obs>, p: Problem, at: int)
    requires Correlates(key, v, log)
    ensures var (v', notice) := SeenAgain(v, p.kind, at);
      Correlates(key, v', log + [Obs(p, at, notice)])
  {
    var (v', notice) := SeenAgain(v, p.kind, at);
    var longer := log + [Obs(p, at, notice)];
    KindsSnoc(log, Obs(p, at, notice));
    forall i: nat | i < |longer|
      ensures longer[i].notice == ExpectedNotice(longer, i)
    {
      if i < |log| {
        assert longer[..i] == log[..i] && longer[i] == log[i];
        assert log[i].notice == ExpectedNotice(log, i);
      } else {
        assert longer[..i] == log;
      }
    }
  }

  lemma FirstObservation(o: Obs)
    requires o.notice.New?
    ensures FirstSeen([o]) == [o.p.kind] && Kinds([o]) == {o.p.kind}
    ensures Noticed([o])
  {
    var none: seq<Obs> := [];
    KindsSnoc(none, o);
    assert none + [o] == [o] && FirstSeen(none) == [];
    assert Kinds(none) == {};
    hide FirstSeen, Kinds;
    assert ExpectedNotice([o], 0) == New;
  }

  lemma OpenedCorrelates(p: Problem, at: int)
    ensures Correlates(Key(p), Opened(p, at), [Obs(p, at, New)])
  {
    hide Key, FirstSeen, Kinds, Noticed;
    FirstObservation(Obs(p, at, New));
  }

  /** A snapshot restored is the same store, so it answers every later question as the original would. */
  lemma RestoreIsIdentity(open: Contents, list: seq<Saved>, restored: Contents)
    requires Lists(list, open) && RestoredFrom(restored, list)
    requires forall k | k in open :: open[k].kindSet == set kind | kind in open[k].kinds
    ensures restored == open
  {
    forall k | k in open
      ensures k in restored && restored[k] == open[k]
    {
      assert ToSaved(open[k]) in list;
      var s :| s in list && s.key == k && restored[k] == FromSaved(s);
      assert ToSaved(open[k]) == s;
    }
    assert forall k | k in restored :: k in open;
  }

  lemma {:induction false} FirstSeenDistinct(log: seq<Obs>)
    ensures forall k :: k in FirstSeen(log) <==> k in Kinds(log)
    ensures forall i, j | 0 <= i < j < |FirstSeen(log)| :: FirstSeen(log)[i] != FirstSeen(log)[j]
    ensures log != [] ==> FirstSeen(log) != [] && FirstSeen(log)[0] == log[0].p.kind
  {
    if log != [] {
      var before, last := log[..|log| - 1], log[|log| - 1];
      FirstSeenDistinct(before);
      assert log == before + [last];
      KindsSnoc(before, last);
    }
  }

  lemma PutKeepsAll(open: Contents, logs: map<string, seq<Obs>>, k: string, v: View, log: seq<Obs>)
    requires AllCorrelate(open, logs) && Correlates(k, v, log)
    ensures AllCorrelate(open[k := v], logs[k := log])
  {
  }

  lemma KindSetMirrorsKinds(log: seq<Obs>)
    ensures Kinds(log) == set kind | kind in FirstSeen(log)
  {
    FirstSeenDistinct(log);
  }

  lemma ObserveKeepsInv(r: Run, p: Problem, at: int, r': Run)
    requires Inv(r) && ObserveStep(r, p, at, r')
    ensures Inv(r')
  {
    var k := Key(p);
    if k in r.open {
      assert Correlates(k, r.open[k], r.logs[k]);
      var (v, notice) := SeenAgain(r.open[k], p.kind, at);
      SeenAgainCorrelates(k, r.open[k], r.logs[k], p, at);
      PutKeepsAll(r.open, r.logs, k, v, r.logs[k] + [Obs(p, at, notice)]);
      assert r'.open.Keys == r.open.Keys;
    } else {
      OpenedCorrelates(p, at);
      PutKeepsAll(r.open, r.logs, k, Opened(p, at), [Obs(p, at, New)]);
      assert [] + [Obs(p, at, New)] == [Obs(p, at, New)];
      assert r'.open.Keys == r.open.Keys + {k};
    }
  }

  predicate SameButForTheHeal(v: View, w: View) {
    w.(proposal := v.proposal, confidence := v.confidence, healed := v.healed) == v
  }

  lemma SameValuesCorrelate(open: Contents, logs: map<string, seq<Obs>>, open': Contents, logs': map<string, seq<Obs>>)
    requires AllCorrelate(open, logs)
    requires forall k | k in open' && k in logs' ::
      && k in open && SameButForTheHeal(open[k], open'[k])
      && k in logs && logs'[k] == logs[k]
    ensures AllCorrelate(open', logs')
  {
    forall k | k in open' && k in logs'
      ensures Correlates(k, open'[k], logs'[k])
    {
      assert Correlates(k, open[k], logs[k]);
    }
  }

  lemma ReapKeepsInv(resolveAfter: int, r: Run, at: int, r': Run)
    requires Inv(r) && ReapStep(resolveAfter, r, at, r')
    ensures Inv(r')
  {
    hide Correlates;
    assert r'.open.Keys <= r.open.Keys;
    assert r.open.Keys == r'.open.Keys + (r.open.Keys - r'.open.Keys);
    SameValuesCorrelate(r.open, r.logs, r'.open, r'.logs);
  }

  lemma RestartKeepsInv(r: Run, r': Run)
    requires Inv(r) && RestartStep(r, r')
    ensures r' == r
  {
    var list :| Lists(list, r.open) && RestoredFrom(r'.open, list);
    forall k | k in r.open
      ensures r.open[k].kindSet == set kind | kind in r.open[k].kinds
    {
      assert Correlates(k, r.open[k], r.logs[k]);
      KindSetMirrorsKinds(r.logs[k]);
    }
    RestoreIsIdentity(r.open, list, r'.open);
  }

  lemma StepKeepsInv(resolveAfter: int, r: Run, e: Event, r': Run)
    requires Inv(r) && Next(resolveAfter, r, e, r')
    ensures Inv(r')
  {
    match e {
      case Observe(p, at) => ObserveKeepsInv(r, p, at, r');
      case Reap(at) => ReapKeepsInv(resolveAfter, r, at, r');
      case SnapshotAndRestore => RestartKeepsInv(r, r');
      case SetProposal(key, a, confidence) =>
        assert r'.open.Keys == r.open.Keys;
        SameValuesCorrelate(r.open, r.logs, r'.open, r'.logs);
      case MarkHealed(key) =>
        assert r'.open.Keys == r.open.Keys;
        SameValuesCorrelate(r.open, r.logs, r'.open, r'.logs);
    }
  }

  // ----- Every run -----

  ghost predicate IsRun(resolveAfter: int, runs: seq<Run>, events: seq<Event>) {
    && |runs| == |events| + 1 && runs[0] == EMPTY
    && forall i | 0 <= i < |events| :: Next(resolveAfter, runs[i], events[i], runs[i + 1])
  }

  lemma {:induction false} RunKeepsInv(resolveAfter: int, runs: seq<Run>, events: seq<Event>, n: nat)
    requires IsRun(resolveAfter, runs, events) && n < |runs|
    ensures Inv(runs[n])
  {
    if n > 0 {
      RunKeepsInv(resolveAfter, runs, events, n - 1);
      StepKeepsInv(resolveAfter, runs[n - 1], events[n - 1], runs[n]);
    }
  }

  /**
   * At any point of any run, an open incident's kinds are distinct, start with its
   * trigger's, and are mirrored by its kind set.
   */
  lemma KindsAreFaithful(resolveAfter: int, runs: seq<Run>, events: seq<Event>, n: nat, k: string)
    requires IsRun(resolveAfter, runs, events) && n < |runs| && k in runs[n].open
    ensures var v := runs[n].open[k];
      && v.kinds != [] && v.kinds[0] == v.trigger.kind
      && (forall i, j | 0 <= i < j < |v.kinds| :: v.kinds[i] != v.kinds[j])
      && v.kindSet == set kind | kind in v.kinds
  {
    RunKeepsInv(resolveAfter, runs, events, n);
    assert Correlates(k, runs[n].open[k], runs[n].logs[k]);
    FirstSeenDistinct(runs[n].logs[k]);
  }

  /**
   * In each open lifetime New was said once, at the start, and Update exactly for
   * those observations that brought a kind not seen before in the lifetime, at
   * another time than its start; never twice for one kind.
   */
  lemma NoticesPerLifetime(resolveAfter: int, runs: seq<Run>, events: seq<Event>, n: nat, k: string, i: nat, j: nat)
    requires IsRun(resolveAfter, runs, events) && n < |runs| && k in runs[n].open
    requires k in runs[n].logs && i < |runs[n].logs[k]| && j < |runs[n].logs[k]|
    ensures var log := runs[n].logs[k];
      && (log[i].notice.New? <==> i == 0)
      && (log[i].notice.Update? <==>
            log[i].at != runs[n].open[k].firstSeen && forall m | 0 <= m < i :: log[m].p.kind != log[i].p.kind)
      && (log[i].notice.Update? && log[j].notice.Update? && log[i].p.kind == log[j].p.kind ==> i == j)
  {
    RunKeepsInv(resolveAfter, runs, events, n);
    var log := runs[n].logs[k];
    assert Correlates(k, runs[n].open[k], log);
    forall x | x in {i, j}
      ensures log[x].notice == ExpectedNotice(log, x)
      ensures log[x].p.kind in Kinds(log[..x]) <==> exists m :: 0 <= m < x && log[m].p.kind == log[x].p.kind
    {
      if m :| 0 <= m < x && log[m].p.kind == log[x].p.kind {
        assert log[..x][m] == log[m];
      }
      if log[x].p.kind in Kinds(log[..x]) {
        var o :| o in log[..x] && o.p.kind == log[x].p.kind;
        var m :| 0 <= m < x && log[..x][m] == o;
        assert log[m].p.kind == log[x].p.kind;
      }
    }
  }

  /** An incident is resolved exactly when a reaping finds its last observation longer ago than resolveAfter. */
  lemma ResolvedIffQuiet(resolveAfter: int, runs: seq<Run>, events: seq<Event>, n: nat, k: string)
    requires IsRun(resolveAfter, runs, events) && n < |events| && k in runs[n].open
    ensures k in runs[n].logs && runs[n].logs[k] != []
    ensures k !in runs[n + 1].open <==>
      events[n].Reap? && events[n].at - runs[n].logs[k][|runs[n].logs[k]| - 1].at > resolveAfter
  {
    RunKeepsInv(resolveAfter, runs, events, n);
    assert Correlates(k, runs[n].open[k], runs[n].logs[k]);
    assert Next(resolveAfter, runs[n], events[n], runs[n + 1]);
    if events[n].SnapshotAndRestore? {
      RestartKeepsInv(runs[n], runs[n + 1]);
    }
  }

  /** No incident is lost: those opened are those resolved and those still open. */
  lemma OpenedIsResolvedPlusOpen(resolveAfter: int, runs: seq<Run>, events: seq<Event>, n: nat)
    requires IsRun(resolveAfter, runs, events) && n < |runs|
    ensures runs[n].openedCount == runs[n].resolvedCount + |runs[n].open|
  {
    RunKeepsInv(resolveAfter, runs, events, n);
  }

  /** At any point of any run, saving and restoring gives back the very same store. */
  lemma RestartChangesNothing(resolveAfter: int, runs: seq<Run>, events: seq<Event>, n: nat,
                              list: seq<Saved>, restored: Contents)
    requires IsRun(resolveAfter, runs, events) && n < |runs|
    requires Lists(list, runs[n].open) && RestoredFrom(restored, list)
    ensures restored == runs[n].open
  {
    forall k | k in runs[n].open {
      KindsAreFaithful(resolveAfter, runs, events, n, k);
    }
    RestoreIsIdentity(runs[n].open, list, restored);
  }
}
