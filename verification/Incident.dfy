/** Correlates the symptoms of one failing container into a single incident. */
module Incident {
  import opened Prelude
  import opened Detect
  import opened HealTypes

  datatype Notice = New | Update | Suppress

  /** An incident's value: `kindSet` is derived from `kinds` and not persisted. */
  datatype View = View(
    key: string, trigger: Problem, kinds: seq<Kind>, kindSet: set<Kind>,
    firstSeen: int, lastSeen: int, count: nat,
    proposal: Option<Blob>, confidence: string, healed: bool)

  /** What is written to durable storage. */
  datatype Saved = Saved(
    key: string, trigger: Problem, kinds: seq<Kind>, firstSeen: int, lastSeen: int, count: nat,
    proposal: Option<Blob>, confidence: string, healed: bool)

  type Contents = map<string, View>

  function Key(p: Problem): string {
    p.namespace + "/" + p.pod + "/" + p.container
  }

  /** Kubernetes names hold no slash, so distinct containers have distinct incidents. */
  lemma KeysDistinguishContainers(p: Problem, q: Problem)
    requires '/' !in p.namespace && '/' !in p.pod && '/' !in q.namespace && '/' !in q.pod
    ensures Key(p) == Key(q) <==> p.namespace == q.namespace && p.pod == q.pod && p.container == q.container
  {
    SlashedNames(p.namespace, p.pod, p.container, q.namespace, q.pod, q.container);
  }

  /** What one observation makes of its problem's incident, if one is open or not, and the notice it gets. */
  predicate SeenAs(was: Option<View>, p: Problem, now: int, v: View, notice: Notice) {
    match was
    case None =>
      && notice.New? && v.key == Key(p) && v.trigger == p && v.kinds == [p.kind] && v.kindSet == {p.kind}
      && v.firstSeen == v.lastSeen == now && v.count == 1 && v.proposal.None? && !v.healed
    case Some(w) =>
      && v.lastSeen == now && v.count == w.count + 1
      && v.key == w.key && v.trigger == w.trigger && v.firstSeen == w.firstSeen
      && v.proposal == w.proposal && v.confidence == w.confidence && v.healed == w.healed
      && if p.kind in w.kindSet then v.kinds == w.kinds && v.kindSet == w.kindSet && notice.Suppress?
         else
           && v.kinds == w.kinds + [p.kind] && v.kindSet == w.kindSet + {p.kind}
           && notice == if w.firstSeen == now then Suppress else Update
  }

  // ----- The operations on values -----

  function Opened(p: Problem, now: int): View {
    View(Key(p), p, [p.kind], {p.kind}, now, now, 1, None, "", false)
  }

  function SeenAgain(v: View, kind: Kind, now: int): (View, Notice) {
    var seen := v.(lastSeen := now, count := v.count + 1);
    if kind in v.kindSet then (seen, Suppress)
    else
      (seen.(kinds := v.kinds + [kind], kindSet := v.kindSet + {kind}),
       if v.firstSeen == now then Suppress else Update)
  }

  function Observed(open: Contents, p: Problem, now: int): (Contents, Notice) {
    var k := Key(p);
    if k !in open then (open[k := Opened(p, now)], New)
    else
      var (v, notice) := SeenAgain(open[k], p.kind, now);
      (open[k := v], notice)
  }

  /** An observation does that to the incident of its own problem, and nothing to any other. */
  lemma ObservedIsSeen(open: Contents, p: Problem, now: int)
    ensures var (after, notice) := Observed(open, p, now);
      && after.Keys == open.Keys + {Key(p)}
      && SeenAs(if Key(p) in open then Some(open[Key(p)]) else None, p, now, after[Key(p)], notice)
      && forall k | k in open && k != Key(p) :: after[k] == open[k]
  {
    hide Key;
  }

  predicate Quiet(v: View, now: int, resolveAfter: int) {
    now - v.lastSeen > resolveAfter
  }

  function Reaped(open: Contents, now: int, resolveAfter: int): Contents {
    map k | k in open && !Quiet(open[k], now, resolveAfter) :: open[k]
  }

  function WithProposal(open: Contents, key: string, blob: Blob, confidence: string): Contents {
    if key in open then open[key := open[key].(proposal := Some(blob), confidence := confidence)] else open
  }

  function WithHeal(open: Contents, key: string): Contents {
    if key in open then open[key := open[key].(healed := true)] else open
  }

  function ToSaved(v: View): Saved {
    Saved(v.key, v.trigger, v.kinds, v.firstSeen, v.lastSeen, v.count, v.proposal, v.confidence, v.healed)
  }

  function FromSaved(s: Saved): View {
    View(s.key, s.trigger, s.kinds, (set k | k in s.kinds), s.firstSeen, s.lastSeen, s.count,
         s.proposal, s.confidence, s.healed)
  }

  // ----- The store -----

  class Incident {
    const key: string
    const trigger: Problem
    const firstSeen: int
    var kinds: seq<Kind>
    var kindSet: set<Kind>
    var lastSeen: int
    var count: nat
    var proposal: Option<Blob>
    var confidence: string
    var healed: bool

    constructor (p: Problem, now: int)
      ensures V() == Opened(p, now)
    {
      key, trigger, firstSeen := Key(p), p, now;
      kinds, kindSet := [p.kind], {p.kind};
      lastSeen, count := now, 1;
      proposal, confidence, healed := None, "", false;
    }

    constructor Load(s: Saved)
      ensures V() == FromSaved(s)
    {
      key, trigger, firstSeen := s.key, s.trigger, s.firstSeen;
      kinds, kindSet := s.kinds, set k | k in s.kinds;
      lastSeen, count := s.lastSeen, s.count;
      proposal, confidence, healed := s.proposal, s.confidence, s.healed;
    }

    function V(): View
      reads this
    {
      View(key, trigger, kinds, kindSet, firstSeen, lastSeen, count, proposal, confidence, healed)
    }

    /** What an observation does to an incident already open. */
    method SeeAgain(kind: Kind, now: int) returns (notice: Notice)
      modifies this
      ensures (V(), notice) == SeenAgain(old(V()), kind, now)
    {
      lastSeen := now;
      count := count + 1;
      if kind in kindSet {
        return Suppress;
      }
      AddKind(kind);
      notice := if firstSeen == now then Suppress else Update;
    }

    method AddKind(k: Kind)
      modifies this`kinds, this`kindSet
      ensures kinds == if k in old(kindSet) then old(kinds) else old(kinds) + [k]
      ensures kindSet == old(kindSet) + {k}
    {
      if k !in kindSet {
        kindSet := kindSet + {k};
        kinds := kinds + [k];
      }
    }
  }

  ghost function ViewsOf(open: map<string, Incident>): Contents
    reads set k | k in open :: open[k]
  {
    map k | k in open :: open[k].V()
  }

  lemma KeptAreNotQuiet(was: map<string, Incident>, now: int, resolveAfter: int, resolved: set<string>)
    requires resolved <= was.Keys
    requires forall k | k in was :: k in resolved <==> now - was[k].lastSeen > resolveAfter
    ensures ViewsOf(was - resolved) == Reaped(ViewsOf(was), now, resolveAfter)
  {
  }

  class Store {
    var open: map<string, Incident>
    const resolveAfter: int
    var dirty: bool

    constructor (resolveAfter: int)
      ensures Valid() && Now() == map[] && !dirty && this.resolveAfter == resolveAfter && open == map[]
    {
      this.open := map[];
      this.resolveAfter := resolveAfter;
      dirty := false;
    }

    /** Each incident sits under its own key, so different keys hold different objects. */
    ghost predicate Valid()
      reads this
    {
      forall k | k in open :: open[k].key == k
    }

    ghost function Objects(): set<Incident>
      reads this
    {
      set k | k in open :: open[k]
    }

    ghost function Now(): Contents
      reads this, Objects()
    {
      ViewsOf(open)
    }

    /**
     * Hands out the incident itself: what later problems of the same sweep add to
     * it is seen by whoever holds it.
     */
    method Observe(p: Problem, now: int) returns (inc: Incident, notice: Notice)
      requires Valid()
      modifies this, Objects()
      ensures Valid() && dirty
      ensures (Now(), notice) == Observed(old(Now()), p, now)
      ensures Key(p) in open && inc == open[Key(p)]
      ensures if Key(p) in old(open) then open == old(open) else open == old(open)[Key(p) := inc] && fresh(inc)
    {
      dirty := true;
      var k := Key(p);
      if k !in open {
        inc := new Incident(p, now);
        open := open[k := inc];
        assert inc.V() == Opened(p, now);
        assert forall j | j in old(open) :: open[j].V() == old(open[j].V());
        assert Now() == old(Now())[k := Opened(p, now)];
        return inc, New;
      }
      inc := open[k];
      assert forall j | j in open && j != k :: open[j] != inc;
      notice := inc.SeeAgain(p.kind, now);
      assert forall j | j in open && j != k :: open[j].V() == old(open[j].V());
      assert Now() == old(Now())[k := inc.V()];
    }

    /** Removes the incidents unseen for longer than resolveAfter. */
    method Reap(now: int) returns (resolved: set<string>)
      requires Valid()
      modifies this
      ensures Valid() && Now() == Reaped(old(Now()), now, resolveAfter)
      ensures forall k :: k in open <==> k in old(open) && now - old(Now())[k].lastSeen <= resolveAfter
      ensures resolved == old(open).Keys - open.Keys && open.Keys <= old(open).Keys
      ensures forall k | k in open :: open[k] == old(open)[k]
      ensures dirty == (old(dirty) || resolved != {})
    {
      resolved := {};
      ghost var was := open;
      var left := open.Keys;
      while left != {}
        modifies this`open, this`dirty
        invariant left <= was.Keys && resolved <= was.Keys - left
        invariant forall k | k in was && k !in left :: k in resolved <==> now - was[k].lastSeen > resolveAfter
        invariant open == was - resolved
        invariant dirty == (old(dirty) || resolved != {})
      {
        var k :| k in left;
        left := left - {k};
        if now - open[k].lastSeen > resolveAfter {
          resolved := resolved + {k};
          open := open - {k};
          dirty := true;
        }
      }
      KeptAreNotQuiet(was, now, resolveAfter, resolved);
    }

    method SetHealProposal(key: string, blob: Blob, confidence: string)
      requires Valid()
      modifies this`dirty, Objects()
      ensures Valid() && Now() == WithProposal(old(Now()), key, blob, confidence)
      ensures key in open ==> Now()[key] == old(Now())[key].(proposal := Some(blob), confidence := confidence)
      ensures Now().Keys == old(Now()).Keys && forall k | k in open && k != key :: Now()[k] == old(Now())[k]
    {
      if key in open {
        var inc := open[key];
        assert forall j | j in open && j != key :: open[j] != inc;
        inc.proposal := Some(blob);
        inc.confidence := confidence;
        dirty := true;
      }
    }

    method MarkHealed(key: string)
      requires Valid()
      modifies this`dirty, Objects()
      ensures Valid() && Now() == WithHeal(old(Now()), key)
      ensures key in open ==> Now()[key] == old(Now())[key].(healed := true)
      ensures Now().Keys == old(Now()).Keys && forall k | k in open && k != key :: Now()[k] == old(Now())[k]
    {
      if key in open && !open[key].healed {
        var inc := open[key];
        assert forall j | j in open && j != key :: open[j] != inc;
        inc.healed := true;
        dirty := true;
      }
    }

    method HealProposal(key: string) returns (proposal: Option<Blob>, confidence: string, healed: bool, ok: bool)
      ensures ok <==> key in open
      ensures ok ==> (proposal, confidence, healed) == (Now()[key].proposal, Now()[key].confidence, Now()[key].healed)
    {
      if key !in open {
        return None, "", false, false;
      }
      return open[key].proposal, open[key].confidence, open[key].healed, true;
    }

    /** A copy of every open incident, in some order. */
    method Snapshot() returns (list: seq<Saved>)
      requires Valid()
      ensures Lists(list, Now())
    {
      list := [];
      var left := open.Keys;
      while left != {}
        invariant left <= open.Keys
        invariant forall s | s in list :: s.key in open && ToSaved(open[s.key].V()) == s
        invariant forall k | k in open && k !in left :: ToSaved(open[k].V()) in list
      {
        var k :| k in left;
        left := left - {k};
        list := list + [ToSaved(open[k].V())];
      }
    }

    /** Replaces the state by a snapshot, rebuilding each kind set, without marking it changed. */
    method Restore(list: seq<Saved>)
      modifies this`open
      ensures Valid()
      ensures RestoredFrom(Now(), list) && forall k | k in open :: fresh(open[k])
    {
      open := map[];
      for i := 0 to |list|
        invariant forall k | k in open ::
          && open[k].key == k && fresh(open[k])
          && exists j :: 0 <= j < i && list[j].key == k && open[k].V() == FromSaved(list[j])
        invariant forall j | 0 <= j < i :: list[j].key in open
      {
        var inc := new Incident.Load(list[i]);
        open := open[list[i].key := inc];
      }
      forall k | k in open
        ensures exists s :: s in list && s.key == k && open[k].V() == FromSaved(s)
      {
        var j :| 0 <= j < |list| && list[j].key == k && open[k].V() == FromSaved(list[j]);
        assert list[j] in list;
      }
    }
  }

  ghost predicate Lists(list: seq<Saved>, open: Contents) {
    && (forall s | s in list :: s.key in open && ToSaved(open[s.key]) == s)
    && forall k | k in open :: ToSaved(open[k]) in list && open[k].key == k
  }

  /** The contents a restored list gives: each listed incident under its key. */
  ghost predicate RestoredFrom(open: Contents, list: seq<Saved>) {
    && (forall k | k in open :: exists s :: s in list && s.key == k && open[k] == FromSaved(s))
    && forall s | s in list :: s.key in open
  }
}
