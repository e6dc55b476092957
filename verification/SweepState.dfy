/**
 * What a sweep is told, and the incidents, counts and records it works on, as values:
 * the invariants of the sweep's loops and the lemmas that keep them.
 */
module SweepState {
  import opened Prelude
  import opened HealTypes
  import opened Cluster
  import opened HealRecord
  import Breaker
  import Detect
  import Executor
  import Health
  import HealStore
  import Incident
  import Lifecycle
  import Playbook
  import PlaybookTheorems
  import TraceTheorems

  /** What one attempt is answered: the key of the pod's controller, by the API server, and by the record store. */
  datatype HealAnswers = HealAnswers(seen: Option<string>, api: Executor.Replies, readable: bool, writable: bool)

  datatype Diagnosis = Diagnosis(action: Action, confidence: string)

  /** What handling one incident is answered. */
  datatype Answers = Answers(
    evidence: Option<Bundle>,
    owner: Option<string>, replay: HealAnswers,
    diagnosis: Option<Diagnosis>, heal: HealAnswers)

  datatype VerifyAnswers = VerifyAnswers(accepted: bool, readable: bool, writable: bool)

  /**
   * What one sweep is told: an answer for each problem's retry and each new incident's
   * handling, whether a surge suspends healing, the pods' controllers, and an answer
   * for each verification.
   */
  datatype World = World(
    retries: nat -> Answers, surge: bool, handled: nat -> Answers,
    listReadable: bool, owners: Health.Owners, verify: string -> VerifyAnswers)

  datatype HealResult = NotAttempted | Skipped | Failed | Done(applied: bool) {
    predicate Applied() {
      Done? && applied
    }
  }

  datatype Enabled = Enabled(healing: bool, breaker: bool, playbook: bool, verifying: bool)

  /** The cooldown is kept for each kind of change to a pod's container. */
  type Target = (ActionKind, string, string, string)

  function TargetOf(p: Plan): Target {
    (p.kind, p.namespace, p.pod, p.container)
  }

  /** A cooldown is for one kind of change to one container of one pod. */
  lemma SameTargetIff(p: Plan, q: Plan)
    ensures TargetOf(p) == TargetOf(q)
      <==> p.kind == q.kind && p.namespace == q.namespace && p.pod == q.pod && p.container == q.container
  {
  }

  predicate CountOk(counts: map<string, nat>, open: Incident.Contents, k: string) {
    && (k in counts <==> k in open)
    && (k in open ==> counts[k] == if open[k].healed then 1 else 0)
  }

  /** Each open incident's lifetime has had one applied heal if it is marked healed, and none otherwise. */
  ghost predicate CountsMatch(counts: map<string, nat>, open: Incident.Contents) {
    forall k :: CountOk(counts, open, k)
  }

  /** Only a heal that was applied to the cluster counts, and it counts once. */
  ghost function CountedHeal(counts: map<string, nat>, k: string, res: HealResult): map<string, nat> {
    if res.Applied() && k in counts then counts[k := counts[k] + 1] else counts
  }

  /** The incidents after an attempt's proposal, and its success if it was one, are noted on incident k. */
  function Noted(open: Incident.Contents, k: string, a: Action, confidence: string, applied: bool): Incident.Contents {
    var proposed := Incident.WithProposal(open, k, Encoded(a), confidence);
    if applied then Incident.WithHeal(proposed, k) else proposed
  }

  lemma NotingKeepsCounts(counts: map<string, nat>, open: Incident.Contents, k: string, a: Action, confidence: string,
                          res: HealResult)
    requires CountsMatch(counts, open) && k in open && !open[k].healed
    ensures CountsMatch(CountedHeal(counts, k, res), Noted(open, k, a, confidence, res.Applied()))
    ensures !res.Applied() ==> CountedHeal(counts, k, res) == counts
  {
    forall j
      ensures CountOk(CountedHeal(counts, k, res), Noted(open, k, a, confidence, res.Applied()), j)
    {
      assert CountOk(counts, open, j);
    }
  }

  predicate ChangedAtMost(k: string, before: Incident.Contents, after: Incident.Contents, j: string) {
    && (j in before <==> j in after)
    && (j in before && j != k ==> after[j] == before[j])
    && (j in before && j == k ==>
          after[k] == before[k].(proposal := after[k].proposal, confidence := after[k].confidence,
                                 healed := after[k].healed))
  }

  /** Only what incident k remembers of its heal may have changed. */
  ghost predicate OnlyHealOf(k: string, before: Incident.Contents, after: Incident.Contents) {
    forall j :: ChangedAtMost(k, before, after, j)
  }

  lemma NothingChanged(k: string, open: Incident.Contents)
    ensures OnlyHealOf(k, open, open)
  {
  }

  lemma NotingChangesOnlyTheHeal(open: Incident.Contents, k: string, a: Action, confidence: string, applied: bool)
    ensures OnlyHealOf(k, open, Noted(open, k, a, confidence, applied))
  {
  }

  /** The counts an agent starts with, taken from what is marked healed already. */
  function StartCounts(open: Incident.Contents): map<string, nat> {
    map k | k in open :: if open[k].healed then 1 else 0
  }

  lemma StartCountsMatch(open: Incident.Contents)
    ensures CountsMatch(StartCounts(open), open)
  {
  }

  predicate PendingIn(records: map<string, Record>, keyOf: Record -> string, rec: Record) {
    keyOf(rec) in records && records[keyOf(rec)] == rec
  }

  ghost predicate AllPending(records: map<string, Record>, keyOf: Record -> string, due: seq<Record>, from: nat) {
    forall i: nat {:trigger PendingIn(records, keyOf, due[i])} | from <= i < |due| :: PendingIn(records, keyOf, due[i])
  }

  predicate AtMostGone(before: map<string, Record>, after: map<string, Record>, key: string) {
    after == before || after == before - {key}
  }

  lemma OthersStayPending(before: map<string, Record>, after: map<string, Record>, keyOf: Record -> string,
                          due: seq<Record>, i: nat)
    requires i < |due| && HealStore.OnePerKey(keyOf, due) && AllPending(before, keyOf, due, i)
    requires AtMostGone(before, after, keyOf(due[i]))
    ensures AllPending(after, keyOf, due, i + 1)
  {
    forall j: nat | i + 1 <= j < |due|
      ensures PendingIn(after, keyOf, due[j])
    {
      assert PendingIn(before, keyOf, due[j]);
    }
  }

  // ----- One check of each due record -----

  /** A step of the trace that checks this record, and what it is told and does. */
  ghost predicate IsCheck(s: Lifecycle.State, e: Lifecycle.Event, s': Lifecycle.State, rec: Record,
                          unhealthy: set<string>, accepted: bool, now: int)
  {
    && e.Verify? && e.key == rec.ControllerKey() && e.now == now && e.accepted == accepted
    && e.key in s.pending && s.pending[e.key] == rec
    && (e.stillFailing <==> e.key in unhealthy)
    && TraceTheorems.ChecksRecord(s, e, s')
  }

  ghost predicate CheckedAt(states: seq<Lifecycle.State>, events: seq<Lifecycle.Event>, i: nat, rec: Record,
                            unhealthy: set<string>, accepted: bool, now: int)
  {
    && i < |events| && i + 1 < |states|
    && IsCheck(states[i], events[i], states[i + 1], rec, unhealthy, accepted, now)
  }

  /** From a point of the trace on, this record has been checked against its controller's health. */
  ghost predicate Checked(states: seq<Lifecycle.State>, events: seq<Lifecycle.Event>, from: nat, rec: Record,
                          unhealthy: set<string>, ans: string -> VerifyAnswers, now: int)
  {
    exists i: nat :: from <= i
      && CheckedAt(states, events, i, rec, unhealthy, ans(rec.ControllerKey()).accepted, now)
  }

  lemma StaysChecked(states: seq<Lifecycle.State>, events: seq<Lifecycle.Event>, states': seq<Lifecycle.State>,
                     events': seq<Lifecycle.Event>, from: nat, rec: Record, unhealthy: set<string>,
                     ans: string -> VerifyAnswers, now: int)
    requires states <= states' && events <= events' && Checked(states, events, from, rec, unhealthy, ans, now)
    ensures Checked(states', events', from, rec, unhealthy, ans, now)
  {
    hide IsCheck;
    var accepted := ans(rec.ControllerKey()).accepted;
    var i: nat :| from <= i && CheckedAt(states, events, i, rec, unhealthy, accepted, now);
    assert CheckedAt(states', events', i, rec, unhealthy, accepted, now);
  }

  /** The first n of these records have been checked. */
  ghost predicate AllChecked(states: seq<Lifecycle.State>, events: seq<Lifecycle.Event>, from: nat, due: seq<Record>,
                             n: nat, unhealthy: set<string>, ans: string -> VerifyAnswers, now: int)
  {
    forall i: nat {:trigger Checked(states, events, from, due[i], unhealthy, ans, now)} | i < n && i < |due| ::
      Checked(states, events, from, due[i], unhealthy, ans, now)
  }

  lemma NoneCheckedYet(states: seq<Lifecycle.State>, events: seq<Lifecycle.Event>, from: nat, due: seq<Record>,
                       unhealthy: set<string>, ans: string -> VerifyAnswers, now: int)
    ensures AllChecked(states, events, from, due, 0, unhealthy, ans, now)
  {
  }

  lemma StillToCheck(records: map<string, Record>, keyOf: Record -> string, due: seq<Record>, i: nat)
    requires AllPending(records, keyOf, due, i) && i < |due|
    ensures PendingIn(records, keyOf, due[i])
  {
  }

  lemma OneMoreChecked(states: seq<Lifecycle.State>, events: seq<Lifecycle.Event>, e: Lifecycle.Event,
                       s': Lifecycle.State, from: nat, due: seq<Record>, n: nat, unhealthy: set<string>,
                       ans: string -> VerifyAnswers, now: int)
    requires |states| == |events| + 1
    requires n < |due| && from <= |events| && AllChecked(states, events, from, due, n, unhealthy, ans, now)
    requires IsCheck(states[|events|], e, s', due[n], unhealthy, ans(due[n].ControllerKey()).accepted, now)
    ensures AllChecked(states + [s'], events + [e], from, due, n + 1, unhealthy, ans, now)
  {
    hide IsCheck, Checked;
    var states', events' := states + [s'], events + [e];
    forall i: nat | i < n + 1
      ensures Checked(states', events', from, due[i], unhealthy, ans, now)
    {
      if i < n {
        assert Checked(states, events, from, due[i], unhealthy, ans, now);
        StaysChecked(states, events, states', events', from, due[i], unhealthy, ans, now);
      } else {
        LastChecked(states', events', from, due[n], unhealthy, ans, now);
      }
    }
  }

  lemma LastChecked(states: seq<Lifecycle.State>, events: seq<Lifecycle.Event>, from: nat, rec: Record,
                    unhealthy: set<string>, ans: string -> VerifyAnswers, now: int)
    requires |states| == |events| + 1 && from < |events|
    requires IsCheck(states[|events| - 1], events[|events| - 1], states[|events|], rec, unhealthy,
                     ans(rec.ControllerKey()).accepted, now)
    ensures Checked(states, events, from, rec, unhealthy, ans, now)
  {
    hide IsCheck;
    assert CheckedAt(states, events, |events| - 1, rec, unhealthy, ans(rec.ControllerKey()).accepted, now);
  }

  /**
   * The record was found failing only if its controller has a confirmed problem, and
   * with real names if it has; and the step did to cluster and records what such a
   * check does.
   */
  ghost predicate IsFairCheck(s: Lifecycle.State, e: Lifecycle.Event, s': Lifecycle.State, rec: Record,
                              problems: seq<Detect.Problem>, owners: Health.Owners, accepted: bool, now: int)
  {
    && e.Verify? && e.key == rec.ControllerKey() && e.now == now && e.accepted == accepted
    && e.key in s.pending && s.pending[e.key] == rec
    && (e.stillFailing ==> Health.Confirmed(problems, owners, e.key))
    && (Health.NamespacesAreNames(problems) && Health.Confirmed(problems, owners, e.key) ==> e.stillFailing)
    && TraceTheorems.ChecksRecord(s, e, s')
  }

  ghost predicate FairlyChecked(states: seq<Lifecycle.State>, events: seq<Lifecycle.Event>, from: nat, rec: Record,
                                problems: seq<Detect.Problem>, owners: Health.Owners, ans: string -> VerifyAnswers,
                                now: int)
  {
    exists i: nat :: from <= i < |events| && i + 1 < |states|
      && IsFairCheck(states[i], events[i], states[i + 1], rec, problems, owners, ans(rec.ControllerKey()).accepted, now)
  }

  lemma CheckedIsFair(states: seq<Lifecycle.State>, events: seq<Lifecycle.Event>, from: nat, rec: Record,
                      unhealthy: set<string>, problems: seq<Detect.Problem>, owners: Health.Owners,
                      ans: string -> VerifyAnswers, now: int)
    requires Checked(states, events, from, rec, unhealthy, ans, now)
    requires Health.IsUnhealthy(unhealthy, problems, owners)
    ensures FairlyChecked(states, events, from, rec, problems, owners, ans, now)
  {
    hide TraceTheorems.ChecksRecord;
    var accepted := ans(rec.ControllerKey()).accepted;
    var i: nat :| from <= i && CheckedAt(states, events, i, rec, unhealthy, accepted, now);
    assert IsFairCheck(states[i], events[i], states[i + 1], rec, problems, owners, accepted, now);
  }

  lemma EveryDueFairlyChecked(states: seq<Lifecycle.State>, events: seq<Lifecycle.Event>, from: nat, due: seq<Record>,
                              unhealthy: set<string>, problems: seq<Detect.Problem>, owners: Health.Owners,
                              ans: string -> VerifyAnswers, now: int)
    requires AllChecked(states, events, from, due, |due|, unhealthy, ans, now)
    requires Health.IsUnhealthy(unhealthy, problems, owners)
    ensures forall r | r in due :: FairlyChecked(states, events, from, r, problems, owners, ans, now)
  {
    hide Checked, FairlyChecked, Health.IsUnhealthy;
    forall r | r in due
      ensures FairlyChecked(states, events, from, r, problems, owners, ans, now)
    {
      var i: nat :| i < |due| && due[i] == r;
      assert Checked(states, events, from, due[i], unhealthy, ans, now);
      CheckedIsFair(states, events, from, r, unhealthy, problems, owners, ans, now);
    }
  }

  // ----- What playbook and breaker hear of the checks -----

  /** The event is the check of a record whose grace has passed. */
  predicate DueCheck(s: Lifecycle.State, e: Lifecycle.Event) {
    e.Verify? && e.key in s.pending && e.now >= s.pending[e.key].verifyAfter
  }

  /** A heal that did not hold counts against its pair; one that held is learned, if its action is on record. */
  function LessonOf(s: Lifecycle.State, e: Lifecycle.Event): seq<PlaybookTheorems.Op<Blob>> {
    if !DueCheck(s, e) then []
    else
      var rec := s.pending[e.key];
      if e.stillFailing then [PlaybookTheorems.Fails(e.key, rec.kind)]
      else if rec.action.None? then []
      else [PlaybookTheorems.Learn(e.key, rec.kind, rec.action, rec.confidence)]
  }

  /** The lessons of a trace from a point on, in its order. */
  function Lessons(states: seq<Lifecycle.State>, events: seq<Lifecycle.Event>, from: nat)
    : seq<PlaybookTheorems.Op<Blob>>
    requires |states| == |events| + 1
    decreases |events|
  {
    if |events| <= from then []
    else
      var last := |events| - 1;
      Lessons(states[..|states| - 1], events[..last], from) + LessonOf(states[last], events[last])
  }

  /** The breaker of a workload whose heal did not hold hears of its rollback. */
  function CondemnationOf(s: Lifecycle.State, e: Lifecycle.Event, key: string): seq<Breaker.Event> {
    if DueCheck(s, e) && e.stillFailing && e.key == key then [Breaker.Rollback(e.now)] else []
  }

  function Condemnations(states: seq<Lifecycle.State>, events: seq<Lifecycle.Event>, from: nat, key: string)
    : seq<Breaker.Event>
    requires |states| == |events| + 1
    decreases |events|
  {
    if |events| <= from then []
    else
      var last := |events| - 1;
      Condemnations(states[..|states| - 1], events[..last], from, key) + CondemnationOf(states[last], events[last], key)
  }

  lemma OneMoreLesson(states: seq<Lifecycle.State>, events: seq<Lifecycle.Event>, e: Lifecycle.Event,
                      s': Lifecycle.State, from: nat, key: string)
    requires |states| == |events| + 1 && from <= |events|
    ensures Lessons(states + [s'], events + [e], from)
         == Lessons(states, events, from) + LessonOf(states[|events|], e)
    ensures Condemnations(states + [s'], events + [e], from, key)
         == Condemnations(states, events, from, key) + CondemnationOf(states[|events|], e, key)
  {
    hide LessonOf, CondemnationOf;
    var states', events' := states + [s'], events + [e];
    assert states'[..|states'| - 1] == states && events'[..|events'| - 1] == events;
    assert states'[|events|] == states[|events|];
  }

  /** All that has been said to playbook and breakers. */
  datatype Talk = Talk(lessons: seq<PlaybookTheorems.Op<Blob>>, logs: map<string, seq<Breaker.Event>>)

  predicate ToldAt(before: Talk, after: Talk, key: string, more: seq<Breaker.Event>) {
    Breaker.LogIn(after.logs, key) == Breaker.LogIn(before.logs, key) + more
  }

  /** Those of the two that are configured have heard of one event what is to be heard of it. */
  ghost predicate ToldOf(on: Enabled, s: Lifecycle.State, e: Lifecycle.Event, before: Talk, after: Talk) {
    && after.lessons == before.lessons + (if on.playbook then LessonOf(s, e) else [])
    && (on.breaker ==> forall key :: ToldAt(before, after, key, CondemnationOf(s, e, key)))
  }

  lemma ToldOfFailure(on: Enabled, s: Lifecycle.State, e: Lifecycle.Event, before: Talk, after: Talk)
    requires DueCheck(s, e) && e.stillFailing
    requires after.lessons ==
      before.lessons + (if on.playbook then [PlaybookTheorems.Fails(e.key, s.pending[e.key].kind)] else [])
    requires on.breaker ==>
      && Breaker.LogIn(after.logs, e.key) == Breaker.LogIn(before.logs, e.key) + [Breaker.Rollback(e.now)]
      && forall k | k != e.key :: Breaker.LogIn(after.logs, k) == Breaker.LogIn(before.logs, k)
    ensures ToldOf(on, s, e, before, after)
  {
  }

  lemma ToldOfSuccess(on: Enabled, s: Lifecycle.State, e: Lifecycle.Event, before: Talk, after: Talk)
    requires DueCheck(s, e) && !e.stillFailing && after.logs == before.logs
    requires var rec := s.pending[e.key];
      after.lessons == before.lessons
        + if on.playbook && rec.action.Some? then
            [PlaybookTheorems.Learn(e.key, rec.kind, rec.action, rec.confidence)]
          else []
    ensures ToldOf(on, s, e, before, after)
  {
  }

  /** They have heard of every event of a trace from a point on, in order, and of nothing else. */
  ghost predicate ToldSince(on: Enabled, states: seq<Lifecycle.State>, events: seq<Lifecycle.Event>, from: nat,
                            before: Talk, after: Talk)
  {
    && |states| == |events| + 1 && from <= |events|
    && after.lessons == before.lessons + (if on.playbook then Lessons(states, events, from) else [])
    && (on.breaker ==> forall key :: ToldAt(before, after, key, Condemnations(states, events, from, key)))
  }

  lemma NothingToldYet(on: Enabled, states: seq<Lifecycle.State>, events: seq<Lifecycle.Event>, talk: Talk)
    requires |states| == |events| + 1
    ensures ToldSince(on, states, events, |events|, talk, talk)
  {
  }

  lemma ToldOneMore(on: Enabled, states: seq<Lifecycle.State>, events: seq<Lifecycle.Event>, e: Lifecycle.Event,
                    s': Lifecycle.State, from: nat, first: Talk, before: Talk, after: Talk)
    requires ToldSince(on, states, events, from, first, before) && ToldOf(on, states[|events|], e, before, after)
    ensures ToldSince(on, states + [s'], events + [e], from, first, after)
  {
    hide Lessons, Condemnations, LessonOf, CondemnationOf;
    OneMoreLesson(states, events, e, s', from, "");
    if on.breaker {
      forall key
        ensures ToldAt(first, after, key, Condemnations(states + [s'], events + [e], from, key))
      {
        assert ToldAt(first, before, key, Condemnations(states, events, from, key));
        assert ToldAt(before, after, key, CondemnationOf(states[|events|], e, key));
        OneMoreLesson(states, events, e, s', from, key);
      }
    }
  }

  lemma SafeLater(b: Playbook.State<Blob>, before: int, now: int)
    requires PlaybookTheorems.Safe(b, before) && before <= now
    ensures PlaybookTheorems.Safe(b, now)
  {
    assert forall k | Playbook.Barred(b, k, now) :: Playbook.Barred(b, k, before);
  }

  /** The incident is healed, or what was diagnosed, if anything, is remembered to be retried. */
  predicate Treated(open: Incident.Contents, k: string, diagnosis: Option<Diagnosis>) {
    k in open && (open[k].healed || (diagnosis.Some? ==> open[k].proposal == Some(Encoded(diagnosis.value.action))))
  }

  predicate Quarantined(book: Playbook.State<Blob>, owner: string, kind: string, now: int) {
    Playbook.Barred(book, Playbook.Key(owner, kind), now)
  }

  // ----- How a sweep's incidents and their counts move on -----

  /** Opened or seen in this very sweep, with nothing attempted yet. */
  predicate FreshAt(open: Incident.Contents, now: int, k: string) {
    k in open && open[k].lastSeen == now && open[k].proposal.None? && !open[k].healed
  }

  /** Some problem's incident has this key. */
  predicate KeyAmong(problems: seq<Detect.Problem>, k: string) {
    exists i :: 0 <= i < |problems| && Incident.Key(problems[i]) == k
  }

  predicate NewcomerAt(was: set<string>, newcomers: seq<string>, problems: seq<Detect.Problem>, k: string) {
    k in newcomers <==> k !in was && KeyAmong(problems, k)
  }

  /** The newcomers are exactly the problems' incidents that were not open before. */
  ghost predicate Newcomers(was: set<string>, newcomers: seq<string>, problems: seq<Detect.Problem>) {
    forall k :: NewcomerAt(was, newcomers, problems, k)
  }

  predicate OpenAt(was: set<string>, open: set<string>, problems: seq<Detect.Problem>, k: string) {
    k in open <==> k in was || KeyAmong(problems, k)
  }

  /** What is open was open before or has been seen since. */
  ghost predicate OpenedBy(was: set<string>, open: set<string>, problems: seq<Detect.Problem>) {
    forall k :: OpenAt(was, open, problems, k)
  }

  lemma KeyAmongSnoc(problems: seq<Detect.Problem>, p: Detect.Problem, k: string)
    ensures KeyAmong(problems + [p], k) <==> KeyAmong(problems, k) || k == Incident.Key(p)
  {
    if KeyAmong(problems, k) {
      var i :| 0 <= i < |problems| && Incident.Key(problems[i]) == k;
      assert Incident.Key((problems + [p])[i]) == k;
    }
    assert Incident.Key((problems + [p])[|problems|]) == Incident.Key(p);
  }

  lemma NewcomersStep(was: set<string>, open: set<string>, newcomers: seq<string>, problems: seq<Detect.Problem>,
                      p: Detect.Problem)
    requires Newcomers(was, newcomers, problems) && OpenedBy(was, open, problems)
    ensures var k := Incident.Key(p);
      && OpenedBy(was, open + {k}, problems + [p])
      && Newcomers(was, if k in open then newcomers else newcomers + [k], problems + [p])
  {
    var k := Incident.Key(p);
    var after, longer := open + {k}, if k in open then newcomers else newcomers + [k];
    forall j
      ensures NewcomerAt(was, longer, problems + [p], j) && OpenAt(was, after, problems + [p], j)
    {
      assert NewcomerAt(was, newcomers, problems, j) && OpenAt(was, open, problems, j);
      assert NewcomerAt(was, newcomers, problems, k) && OpenAt(was, open, problems, k);
      KeyAmongSnoc(problems, p, j);
    }
  }

  lemma NoNewcomersYet(was: set<string>)
    ensures Newcomers(was, [], []) && OpenedBy(was, was, [])
  {
  }

  predicate TreatedAt(open: Incident.Contents, newcomers: seq<string>, answers: nat -> Answers, i: nat) {
    i < |newcomers| && answers(i).evidence.Some? ==> Treated(open, newcomers[i], answers(i).diagnosis)
  }

  /** The first n newcomers have been handled. */
  ghost predicate AllTreated(open: Incident.Contents, newcomers: seq<string>, answers: nat -> Answers, n: nat) {
    forall i: nat {:trigger TreatedAt(open, newcomers, answers, i)} | i < n :: TreatedAt(open, newcomers, answers, i)
  }

  lemma OneMoreTreated(before: Incident.Contents, after: Incident.Contents, newcomers: seq<string>,
                       answers: nat -> Answers, n: nat)
    requires n < |newcomers| && forall i, j | 0 <= i < j < |newcomers| :: newcomers[i] != newcomers[j]
    requires AllTreated(before, newcomers, answers, n) && OnlyHealOf(newcomers[n], before, after)
    requires TreatedAt(after, newcomers, answers, n)
    ensures AllTreated(after, newcomers, answers, n + 1)
  {
    forall i: nat | i < n + 1
      ensures TreatedAt(after, newcomers, answers, i)
    {
      if i < n {
        assert TreatedAt(before, newcomers, answers, i);
        assert ChangedAtMost(newcomers[n], before, after, newcomers[i]);
      }
    }
  }

  predicate Unhealed(open: Incident.Contents, k: string) {
    k in open && !open[k].healed
  }

  ghost predicate AllUnhealed(open: Incident.Contents, newcomers: seq<string>, n: nat) {
    forall i: nat {:trigger Unhealed(open, newcomers[i])} | i < n && i < |newcomers| :: Unhealed(open, newcomers[i])
  }

  /** From the n-th on no newcomer is healed. */
  ghost predicate NotHealed(open: Incident.Contents, newcomers: seq<string>, n: nat) {
    forall i: nat {:trigger Unhealed(open, newcomers[i])} | n <= i < |newcomers| :: Unhealed(open, newcomers[i])
  }

  lemma NoneHandledYet(open: Incident.Contents, newcomers: seq<string>, answers: nat -> Answers)
    ensures AllTreated(open, newcomers, answers, 0) && AllUnhealed(open, newcomers, 0)
  {
  }

  lemma OneMoreUnhealed(before: Incident.Contents, after: Incident.Contents, newcomers: seq<string>, n: nat)
    requires n < |newcomers| && forall i, j | 0 <= i < j < |newcomers| :: newcomers[i] != newcomers[j]
    requires AllUnhealed(before, newcomers, n) && OnlyHealOf(newcomers[n], before, after)
    requires Unhealed(after, newcomers[n])
    ensures AllUnhealed(after, newcomers, n + 1)
  {
    forall i: nat | i < n + 1
      ensures Unhealed(after, newcomers[i])
    {
      if i < n {
        assert Unhealed(before, newcomers[i]);
        assert ChangedAtMost(newcomers[n], before, after, newcomers[i]);
      }
    }
  }

  /** Newcomers still waiting are not healed; nor, in a surge, are those that were handled. */
  lemma UntouchedAreUnhealed(open: Incident.Contents, now: int, newcomers: seq<string>, n: nat, surge: bool,
                             seen: seq<Detect.Problem>)
    requires n <= |newcomers| && InHand(open, now, newcomers[n..], seen)
    requires surge ==> AllUnhealed(open, newcomers, n)
    ensures NotHealed(open, newcomers, if surge then 0 else n)
  {
    forall i: nat | i < |newcomers| && (surge || n <= i)
      ensures Unhealed(open, newcomers[i])
    {
      if i >= n {
        assert FreshAt(open, now, newcomers[n..][i - n]);
      }
    }
  }

  predicate SeenNow(open: Incident.Contents, now: int, p: Detect.Problem) {
    Incident.Key(p) in open && open[Incident.Key(p)].lastSeen == now
  }

  ghost predicate AllSeen(open: Incident.Contents, now: int, seen: seq<Detect.Problem>) {
    forall i: nat {:trigger SeenNow(open, now, seen[i])} | i < |seen| :: SeenNow(open, now, seen[i])
  }

  /** The incidents opened in this sweep wait to be handled, and every problem seen so far has its incident. */
  ghost predicate InHand(open: Incident.Contents, now: int, newcomers: seq<string>, seen: seq<Detect.Problem>) {
    && (forall i: nat {:trigger FreshAt(open, now, newcomers[i])} | i < |newcomers| :: FreshAt(open, now, newcomers[i]))
    && (forall i, j | 0 <= i < j < |newcomers| :: newcomers[i] != newcomers[j])
    && AllSeen(open, now, seen)
  }

  lemma AllDistinct(open: Incident.Contents, now: int, newcomers: seq<string>, seen: seq<Detect.Problem>)
    requires InHand(open, now, newcomers, seen)
    ensures forall i, j | 0 <= i < j < |newcomers| :: newcomers[i] != newcomers[j]
  {
  }

  lemma FirstIsFresh(open: Incident.Contents, now: int, newcomers: seq<string>, seen: seq<Detect.Problem>)
    requires newcomers != [] && InHand(open, now, newcomers, seen)
    ensures FreshAt(open, now, newcomers[0])
  {
  }

  lemma SeenStays(before: Incident.Contents, after: Incident.Contents, now: int, k: string, newcomers: seq<string>,
                  seen: seq<Detect.Problem>)
    requires InHand(before, now, newcomers, seen) && OnlyHealOf(k, before, after)
    ensures InHand(after, now, [], seen)
  {
    forall i: nat | i < |seen|
      ensures SeenNow(after, now, seen[i])
    {
      assert SeenNow(before, now, seen[i]);
      assert ChangedAtMost(k, before, after, Incident.Key(seen[i]));
    }
  }

  lemma RetryKeepsInHand(before: Incident.Contents, after: Incident.Contents, now: int, k: string,
                         newcomers: seq<string>, seen: seq<Detect.Problem>)
    requires InHand(before, now, newcomers, seen) && OnlyHealOf(k, before, after)
    requires k in before && before[k].proposal.None? ==> after == before
    ensures InHand(after, now, newcomers, seen)
  {
    SeenStays(before, after, now, k, newcomers, seen);
    forall i: nat | i < |newcomers|
      ensures FreshAt(after, now, newcomers[i])
    {
      assert FreshAt(before, now, newcomers[i]);
      assert ChangedAtMost(k, before, after, newcomers[i]);
    }
  }

  lemma HandlingKeepsInHand(before: Incident.Contents, after: Incident.Contents, now: int, newcomers: seq<string>,
                            seen: seq<Detect.Problem>)
    requires newcomers != [] && InHand(before, now, newcomers, seen) && OnlyHealOf(newcomers[0], before, after)
    ensures InHand(after, now, newcomers[1..], seen)
  {
    SeenStays(before, after, now, newcomers[0], newcomers, seen);
    var others := newcomers[1..];
    forall i: nat | i < |others|
      ensures FreshAt(after, now, others[i])
    {
      assert FreshAt(before, now, newcomers[i + 1]);
      assert ChangedAtMost(newcomers[0], before, after, others[i]);
    }
  }

  lemma OneMoreNewcomer(open: Incident.Contents, now: int, newcomers: seq<string>, seen: seq<Detect.Problem>, k: string)
    requires InHand(open, now, newcomers, seen) && k !in newcomers && FreshAt(open, now, k)
    ensures InHand(open, now, newcomers + [k], seen)
  {
    forall i: nat | i < |newcomers + [k]|
      ensures FreshAt(open, now, (newcomers + [k])[i])
    {
      if i < |newcomers| {
        assert FreshAt(open, now, newcomers[i]);
      }
    }
  }

  lemma CorrelatingKeepsCounts(counts: map<string, nat>, open: Incident.Contents, p: Detect.Problem, now: int,
                               after: Incident.Contents, notice: Incident.Notice, k: string)
    requires CountsMatch(counts, open) && (after, notice) == Incident.Observed(open, p, now) && k == Incident.Key(p)
    ensures CountsMatch(if k in counts then counts else counts[k := 0], after)
  {
    var counts' := if k in counts then counts else counts[k := 0];
    assert CountOk(counts, open, k);
    forall j
      ensures CountOk(counts', after, j)
    {
      assert CountOk(counts, open, j);
    }
  }

  lemma CorrelatingKeepsInHand(open: Incident.Contents, p: Detect.Problem, now: int, newcomers: seq<string>,
                               seen: seq<Detect.Problem>, after: Incident.Contents, notice: Incident.Notice, k: string)
    requires InHand(open, now, newcomers, seen)
    requires (after, notice) == Incident.Observed(open, p, now) && k == Incident.Key(p)
    ensures InHand(after, now, newcomers, seen + [p])
    ensures notice.New? ==> k !in newcomers && FreshAt(after, now, k)
  {
    forall i: nat | i < |newcomers|
      ensures FreshAt(after, now, newcomers[i]) && newcomers[i] in open
    {
      assert FreshAt(open, now, newcomers[i]);
    }
    forall i: nat | i < |seen + [p]|
      ensures SeenNow(after, now, (seen + [p])[i])
    {
      if i < |seen| {
        assert SeenNow(open, now, seen[i]);
      }
    }
  }

  function StillOpen(counts: map<string, nat>, open: Incident.Contents): map<string, nat> {
    map k | k in counts && k in open :: counts[k]
  }

  lemma ReapingKeepsCounts(counts: map<string, nat>, open: Incident.Contents, now: int, resolveAfter: int)
    requires CountsMatch(counts, open)
    ensures var open' := Incident.Reaped(open, now, resolveAfter);
      CountsMatch(StillOpen(counts, open'), open')
  {
    var open' := Incident.Reaped(open, now, resolveAfter);
    forall j
      ensures CountOk(StillOpen(counts, open'), open', j)
    {
      assert CountOk(counts, open, j);
    }
  }

  lemma ReapingKeepsInHand(open: Incident.Contents, now: int, resolveAfter: int, newcomers: seq<string>,
                           seen: seq<Detect.Problem>)
    requires InHand(open, now, newcomers, seen) && resolveAfter >= 0
    ensures InHand(Incident.Reaped(open, now, resolveAfter), now, newcomers, seen)
  {
    forall i: nat | i < |newcomers|
      ensures FreshAt(Incident.Reaped(open, now, resolveAfter), now, newcomers[i])
    {
      assert FreshAt(open, now, newcomers[i]);
    }
    forall i: nat | i < |seen|
      ensures SeenNow(Incident.Reaped(open, now, resolveAfter), now, seen[i])
    {
      assert SeenNow(open, now, seen[i]);
    }
  }
}
