/** Which controllers a sweep's confirmed problems belong to. */
module Health {
  import opened Prelude
  import opened Cluster
  import opened HealRecord
  import opened Detect

  /** The controller of a pod, if it has one that can be healed. */
  type Owners = (string, string) -> Option<ControllerRef>

  function PodKey(p: Problem): string {
    p.namespace + "/" + p.pod
  }

  /** A confirmed problem, not a forecast, of one of this controller's pods. */
  predicate Blames(p: Problem, owners: Owners, key: string) {
    && !p.kind.MemoryPressure? && !p.kind.CPUPressure?
    && owners(p.namespace, p.pod).Some? && KeyOf(owners(p.namespace, p.pod).value) == key
  }

  predicate Confirmed(problems: seq<Problem>, owners: Owners, key: string) {
    exists i :: 0 <= i < |problems| && Blames(problems[i], owners, key)
  }

  /** As the API server has them, so that a pod's key names one pod. */
  predicate NamespacesAreNames(problems: seq<Problem>) {
    forall i | 0 <= i < |problems| :: '/' !in problems[i].namespace
  }

  /** Holds no controller without a confirmed problem, and with real names every one that has. */
  ghost predicate IsUnhealthy(unhealthy: set<string>, problems: seq<Problem>, owners: Owners) {
    && (forall key | key in unhealthy :: Confirmed(problems, owners, key))
    && (NamespacesAreNames(problems) ==> forall key | Confirmed(problems, owners, key) :: key in unhealthy)
  }

  lemma PodKeysDistinguishPods(p: Problem, q: Problem)
    requires '/' !in p.namespace && '/' !in q.namespace && PodKey(p) == PodKey(q)
    ensures p.namespace == q.namespace && p.pod == q.pod
  {
    assert PodKey(p) == p.namespace + ("/" + p.pod) && PodKey(q) == q.namespace + ("/" + q.pod);
    FirstSeparator('/', p.namespace, p.pod, q.namespace, q.pod);
  }

  /** A pod that was resolved before has its controller among the unhealthy ones already. */
  lemma AlreadyResolved(problems: seq<Problem>, owners: Owners, i: nat, unhealthy: set<string>)
    requires i < |problems| && NamespacesAreNames(problems) && !problems[i].kind.Predictive()
    requires exists j :: 0 <= j < i && !problems[j].kind.Predictive() && PodKey(problems[j]) == PodKey(problems[i])
    requires forall key, j | 0 <= j < i && Blames(problems[j], owners, key) :: key in unhealthy
    ensures forall key | Blames(problems[i], owners, key) :: key in unhealthy
  {
    var j :| 0 <= j < i && !problems[j].kind.Predictive() && PodKey(problems[j]) == PodKey(problems[i]);
    PodKeysDistinguishPods(problems[j], problems[i]);
    forall key | Blames(problems[i], owners, key)
      ensures key in unhealthy
    {
      assert Blames(problems[j], owners, key);
    }
  }

  /** Forecasts are passed over, and each pod's controller is resolved once. */
  method UnhealthyControllers(problems: seq<Problem>, owners: Owners) returns (unhealthy: set<string>)
    ensures IsUnhealthy(unhealthy, problems, owners)
  {
    unhealthy := {};
    var seen: set<string> := {};
    for i := 0 to |problems|
      invariant forall k | k in seen ::
        exists j :: 0 <= j < i && !problems[j].kind.Predictive() && PodKey(problems[j]) == k
      invariant forall key | key in unhealthy :: Confirmed(problems, owners, key)
      invariant NamespacesAreNames(problems) ==>
        forall key, j | 0 <= j < i && Blames(problems[j], owners, key) :: key in unhealthy
    {
      var p := problems[i];
      if p.kind.Predictive() {
        continue;
      }
      if PodKey(p) in seen {
        if NamespacesAreNames(problems) {
          AlreadyResolved(problems, owners, i, unhealthy);
        }
        continue;
      }
      seen := seen + {PodKey(p)};
      var ctrl := owners(p.namespace, p.pod);
      if ctrl.None? {
        continue;
      }
      assert Blames(p, owners, KeyOf(ctrl.value));
      unhealthy := unhealthy + {KeyOf(ctrl.value)};
    }
  }
}
