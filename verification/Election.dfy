/** Which StorageCluster is active, and what the election guarantees over every run. */
module Election {
  import opened Collections
  import opened Text
  import opened Clusters

  /** Created first; equal times are broken by name. */
  predicate Earlier(a: StorageCluster, b: StorageCluster)
  {
    a.created < b.created || (a.created == b.created && Less(a.name, b.name))
  }

  /** The other cluster does not stand in the way: it lost the election, or it still waits
      for it and does not come before this one. Clusters of the same name are not compared. */
  ghost predicate Yields(other: StorageCluster, instance: StorageCluster)
  {
    other.phase == Ignored || other.name == instance.name || (other.phase == Empty && !Earlier(other, instance))
  }

  /** The loop with its early returns answers a plain question about all clusters. */
  method IsStorageClusterNotIgnored(instance: StorageCluster, storageClusters: seq<StorageCluster>)
    returns (active: bool)
    ensures active == forall c :: c in storageClusters ==> Yields(c, instance)
  {
    for n := 0 to |storageClusters|
      invariant forall c :: c in storageClusters[..n] ==> Yields(c, instance)
    {
      var storageCluster := storageClusters[n];
      assert storageClusters[..n + 1] == storageClusters[..n] + [storageCluster];
      assert storageCluster in storageClusters;
      if storageCluster.phase != Ignored && storageCluster.name != instance.name {
        if storageCluster.phase == Empty {
          if storageCluster.created < instance.created {
            return false;
          } else if storageCluster.created == instance.created && Less(storageCluster.name, instance.name) {
            return false;
          }
          if n == |storageClusters| - 1 {
            assert storageClusters[..n + 1] == storageClusters;
            return true;
          }
          continue;
        }
        return false;
      }
    }
    assert storageClusters[..|storageClusters|] == storageClusters;
    return true;
  }

  /** Rivals share the namespace or the kind. */
  ghost predicate Rival(other: StorageCluster, instance: StorageCluster)
  {
    other.namespace == instance.namespace || other.external == instance.external
  }

  ghost predicate Active(operatorNamespace: string, stored: Stored, instance: StorageCluster)
  {
    && !instance.deleting
    && (instance.external || instance.namespace == operatorNamespace)
    && !SameName(stored, instance.name)
    && forall key :: key in stored && Rival(stored[key], instance) ==> Yields(stored[key], instance)
  }

  lemma NamesakeIff(stored: Stored, key: (string, string))
    requires key in stored
    ensures SameName(stored, stored[key].name) <==>
              exists other :: other in stored && other != key && stored[other].name == stored[key].name
  {
  }

  /** Two waiting clusters: the one created first wins, then the one whose name is a prefix
      of the other name or has the smaller character where the two first differ. */
  lemma YieldsIff(other: StorageCluster, instance: StorageCluster)
    requires other.name != instance.name
    ensures var (a, b) := (instance.name, other.name);
            Yields(other, instance) <==>
              || other.phase == Ignored
              || (other.phase == Empty &&
                  (instance.created < other.created ||
                   (instance.created == other.created &&
                    (a <= b || exists i :: 0 <= i < |a| && i < |b| && a[..i] == b[..i] && a[i] < b[i]))))
  {
    var a, b := instance.name, other.name;
    LessTotal(a, b);
    if Less(a, b) { LessAsymmetric(a, b); }
    LessIff(a, b);
  }

  /** The election on the fields of the clusters. Active is a cluster that is not being
      deleted and, if internal, is in the operator's namespace; that has no namesake; and
      beside which every cluster of its namespace or kind has lost the election, or is
      waiting too and was created later, or at the same time under a later name. */
  lemma ActiveIff(operatorNamespace: string, stored: Stored, key: (string, string))
    requires key in stored
    ensures Active(operatorNamespace, stored, stored[key]) <==>
              && !stored[key].deleting && (stored[key].external || stored[key].namespace == operatorNamespace)
              && (forall other :: other in stored && other != key ==> stored[other].name != stored[key].name)
              && forall other | other in stored && other != key &&
                   (stored[other].namespace == stored[key].namespace ||
                    stored[other].external == stored[key].external) ::
                     var (a, b) := (stored[key].name, stored[other].name);
                     || stored[other].phase == Ignored
                     || (stored[other].phase == Empty &&
                         (stored[key].created < stored[other].created ||
                          (stored[key].created == stored[other].created &&
                           (a <= b || exists i :: 0 <= i < |a| && i < |b| && a[..i] == b[..i] && a[i] < b[i]))))
  {
    NamesakeIff(stored, key);
    assert Yields(stored[key], stored[key]);
    forall other | other in stored && stored[other].name != stored[key].name {
      YieldsIff(stored[other], stored[key]);
    }
    assert forall other :: other in stored ==>
        (Rival(stored[other], stored[key]) <==>
           stored[other].namespace == stored[key].namespace || stored[other].external == stored[key].external);
  }

  /** Of two waiting clusters "a" and "b" in the operator's namespace, "b" is active when it
      was created before "a", and otherwise "a" is: with the times 1 and 2 as with 1 and 1. */
  lemma OlderOfTwoIsActive(createdA: int, createdB: int)
    ensures var a := StorageCluster("ns", "a", false, createdA, false, Empty);
            var b := StorageCluster("ns", "b", false, createdB, false, Empty);
            var stored: Stored := map[("ns", "a") := a, ("ns", "b") := b];
            (Active("ns", stored, a) <==> createdA <= createdB) && (Active("ns", stored, b) <==> createdB < createdA)
  {
    var a := StorageCluster("ns", "a", false, createdA, false, Empty);
    var b := StorageCluster("ns", "b", false, createdB, false, Empty);
    var stored: Stored := map[("ns", "a") := a, ("ns", "b") := b];
    assert "a"[0] < "b"[0] && "a"[..0] == "b"[..0];
    NamesakeIff(stored, a.Key());
    NamesakeIff(stored, b.Key());
    YieldsIff(b, a);
    YieldsIff(a, b);
    assert stored[a.Key()] == a && stored[b.Key()] == b && Rival(a, b) && Rival(b, a);
  }

  lemma OneOrMore(list: seq<StorageCluster>, c: StorageCluster)
    requires NoDuplicates(list) && c in list
    ensures |list| == 1 ==> list == [c]
    ensures |list| > 1 ==> exists other :: other in list && other != c
  {
    if |list| > 1 {
      assert list[0] in list && list[1] in list && list[0] != list[1];
    }
  }

  method IsActiveStorageCluster(operatorNamespace: string, clusters: Snapshot, instance: StorageCluster,
                                ghost stored: Stored)
    returns (active: bool)
    requires clusters.Shows(stored)
    requires instance.Key() in stored && stored[instance.Key()] == instance
    ensures active == Active(operatorNamespace, stored, instance)
  {
    if instance.deleting { return false; }
    if !instance.external && instance.namespace != operatorNamespace { return false; }
    var many := clusters.HasMultipleStorageClustersWithSameName(instance.name, stored);
    if many { return false; }
    var neighbours := clusters.GetStorageClustersInNamespace(instance.namespace, stored);
    assert instance in neighbours;
    OneOrMore(neighbours, instance);
    if |neighbours| > 1 {
      var first := IsStorageClusterNotIgnored(instance, neighbours);
      if !first { return false; }
    }
    assert forall c :: c in neighbours ==> Yields(c, instance);
    var peers := if !instance.external then clusters.internalStorageClusters else clusters.externalStorageClusters;
    assert instance in peers;
    OneOrMore(peers, instance);
    if |peers| == 1 {
      active := true;
    } else {
      active := IsStorageClusterNotIgnored(instance, peers);
    }
    if active {
      forall key | key in stored && Rival(stored[key], instance) ensures Yields(stored[key], instance) {
        assert stored[key] in neighbours || stored[key] in peers;
      }
    }
  }

  // ----- the protocol

  /** The steps of a run. `Failed` is a reconcile stopped by a failed validation. */
  datatype Step =
    | Create(cluster: StorageCluster)
    | Reconcile(key: (string, string), phase: Phase)
    | Failed(key: (string, string))
    | MarkDeleted(key: (string, string))
    | Remove(key: (string, string))

  /** The phase one reconcile on a fresh snapshot may leave behind. The status update may
      fail and keep the old phase, and an active cluster may be left with an empty phase by
      an early return. */
  ghost predicate MayLeave(operatorNamespace: string, stored: Stored, c: StorageCluster, phase: Phase)
  {
    || phase == c.phase
    || match c.phase
       case Empty => if Active(operatorNamespace, stored, c) then phase != Ignored else phase == Ignored
       case Ignored => false
       case _ => phase != Empty && phase != Ignored
  }

  ghost predicate Enabled(operatorNamespace: string, stored: Stored, step: Step)
  {
    match step
    case Create(c) => c.Key() !in stored && c.phase == Empty && !c.deleting
    case Reconcile(key, phase) => key in stored && MayLeave(operatorNamespace, stored, stored[key], phase)
    case Failed(key) => key in stored
    case MarkDeleted(key) => key in stored
    case Remove(key) => key in stored
  }

  ghost function Apply(operatorNamespace: string, stored: Stored, step: Step): Stored
    requires Enabled(operatorNamespace, stored, step)
  {
    match step
    case Create(c) => stored[c.Key() := c]
    case Reconcile(key, phase) => stored[key := stored[key].(phase := phase)]
    case Failed(key) => stored[key := stored[key].(phase := Error)]
    case MarkDeleted(key) => stored[key := stored[key].(deleting := true)]
    case Remove(key) => stored - {key}
  }

  /** `states[i + 1]` comes from `states[i]` by `steps[i]`. */
  ghost predicate IsRun(operatorNamespace: string, states: seq<Stored>, steps: seq<Step>)
  {
    && |states| == |steps| + 1
    && forall i :: 0 <= i < |steps| ==>
         Enabled(operatorNamespace, states[i], steps[i]) &&
             states[i + 1] == Apply(operatorNamespace, states[i], steps[i])
  }

  ghost predicate ValidationPasses(steps: seq<Step>)
  {
    forall i :: 0 <= i < |steps| ==> !steps[i].Failed?
  }

  ghost predicate Conflict(a: StorageCluster, b: StorageCluster)
  {
    a.external == b.external || a.namespace == b.namespace || a.name == b.name
  }

  /** No two live clusters are of one kind, in one namespace or of one name. So there is at
      most one live internal and at most one live external cluster. */
  ghost predicate Exclusive(stored: Stored)
  {
    forall a, b :: a in stored && b in stored && a != b && stored[a].Live() && stored[b].Live() ==>
                     !Conflict(stored[a], stored[b])
  }

  /** The invariant: exclusive, and live internal clusters sit in the operator's namespace. */
  ghost predicate Elected(operatorNamespace: string, stored: Stored)
  {
    && Keyed(stored) && Exclusive(stored)
    && forall key :: key in stored && stored[key].Live() && !stored[key].external ==>
                       stored[key].namespace == operatorNamespace
  }

  /** An active cluster has no live rival and no live namesake. */
  lemma ActiveHasNoLiveConflict(operatorNamespace: string, stored: Stored, key: (string, string),
                                other: (string, string))
    requires Keyed(stored) && key in stored && other in stored && other != key
    requires Active(operatorNamespace, stored, stored[key]) && stored[other].Live()
    ensures !Conflict(stored[key], stored[other])
  {
    var c, o := stored[key], stored[other];
    assert o.name != c.name || SameName(stored, c.name);
    assert Conflict(c, o) ==> Rival(o, c) || o.name == c.name;
  }

  lemma StepKeepsElected(operatorNamespace: string, stored: Stored, step: Step)
    requires Elected(operatorNamespace, stored) && Enabled(operatorNamespace, stored, step) && !step.Failed?
    ensures Elected(operatorNamespace, Apply(operatorNamespace, stored, step))
  {
    StepKeepsExclusive(operatorNamespace, stored, step);
  }

  /** Over every run whose validations pass: at every moment at most one internal and one
      external cluster is live, and no two live clusters share a namespace or a name. */
  lemma {:induction false} RunKeepsElected(operatorNamespace: string, states: seq<Stored>, steps: seq<Step>, n: nat)
    requires IsRun(operatorNamespace, states, steps) && ValidationPasses(steps) && n < |states|
    requires Elected(operatorNamespace, states[0])
    ensures Elected(operatorNamespace, states[n])
  {
    if n > 0 {
      RunKeepsElected(operatorNamespace, states, steps, n - 1);
      StepKeepsElected(operatorNamespace, states[n - 1], steps[n - 1]);
    }
  }

  /** A cluster that lost the election stays out for as long as it exists, even after the
      winner is gone. */
  lemma {:induction false} IgnoredStaysIgnored(operatorNamespace: string, states: seq<Stored>, steps: seq<Step>,
                                               n: nat, key: (string, string))
    requires IsRun(operatorNamespace, states, steps) && ValidationPasses(steps) && n < |states|
    requires key in states[0] && states[0][key].phase == Ignored
    requires forall i :: 0 <= i < |steps| ==> steps[i] != Remove(key)
    ensures key in states[n] && states[n][key].phase == Ignored
  {
    if n > 0 {
      IgnoredStaysIgnored(operatorNamespace, states, steps, n - 1, key);
    }
  }

  // ----- without validation the guarantee is lost

  /** A failed validation keeps the guarantee exactly when no live cluster conflicts with
      the one that failed. */
  lemma FailedKeepsExclusive(operatorNamespace: string, stored: Stored, key: (string, string))
    requires Keyed(stored) && Exclusive(stored) && key in stored
    ensures Exclusive(Apply(operatorNamespace, stored, Failed(key))) <==> NoLiveConflict(stored, key)
  {
    var after := Apply(operatorNamespace, stored, Failed(key));
    if Exclusive(after) {
      forall other | other in stored && other != key && stored[other].Live()
        ensures !Conflict(stored[key], stored[other])
      {
        assert after[other] == stored[other] && after[key].Live();
        assert !Conflict(after[key], after[other]);
      }
    }
  }

  ghost predicate NoLiveConflict(stored: Stored, key: (string, string))
    requires key in stored
  {
    forall other :: other in stored && other != key && stored[other].Live() ==> !Conflict(stored[key], stored[other])
  }

  lemma StepKeepsExclusive(operatorNamespace: string, stored: Stored, step: Step)
    requires Keyed(stored) && Exclusive(stored) && Enabled(operatorNamespace, stored, step) && !step.Failed?
    ensures Exclusive(Apply(operatorNamespace, stored, step))
  {
    if step.Reconcile? && stored[step.key].phase == Empty && step.phase != Empty && step.phase != Ignored {
      forall other | other in stored && other != step.key && stored[other].Live()
        ensures !Conflict(stored[step.key], stored[other])
      {
        ActiveHasNoLiveConflict(operatorNamespace, stored, step.key, other);
      }
    }
  }

  lemma {:induction false} RunKeepsKeyed(operatorNamespace: string, states: seq<Stored>, steps: seq<Step>, n: nat)
    requires IsRun(operatorNamespace, states, steps) && n < |states| && Keyed(states[0])
    ensures Keyed(states[n])
  {
    if n > 0 {
      RunKeepsKeyed(operatorNamespace, states, steps, n - 1);
      assert states[n] == Apply(operatorNamespace, states[n - 1], steps[n - 1]);
    }
  }

  /** A failed validation, at any point of the run, meets no live cluster in conflict. */
  ghost predicate FailsApart(operatorNamespace: string, states: seq<Stored>, steps: seq<Step>, n: nat)
    requires IsRun(operatorNamespace, states, steps) && n < |states|
  {
    forall i :: 0 <= i < n && steps[i].Failed? ==> FailsApartAt(operatorNamespace, states, steps, i)
  }

  ghost predicate FailsApartAt(operatorNamespace: string, states: seq<Stored>, steps: seq<Step>, i: nat)
    requires IsRun(operatorNamespace, states, steps) && i < |steps| && steps[i].Failed?
  {
    Enabled(operatorNamespace, states[i], steps[i]) && NoLiveConflict(states[i], steps[i].key)
  }

  /** Over every run, failed validations included: the clusters exclude each other
      throughout if and only if no validation fails beside a live cluster in conflict. */
  lemma {:induction false} RunExclusiveIffFailsApart(operatorNamespace: string, states: seq<Stored>,
                                                     steps: seq<Step>, n: nat)
    requires IsRun(operatorNamespace, states, steps) && n < |states|
    requires Keyed(states[0]) && Exclusive(states[0])
    ensures (forall i :: 0 <= i <= n ==> Exclusive(states[i])) <==> FailsApart(operatorNamespace, states, steps, n)
  {
    if n > 0 {
      RunExclusiveIffFailsApart(operatorNamespace, states, steps, n - 1);
      RunKeepsKeyed(operatorNamespace, states, steps, n - 1);
      var stored, step := states[n - 1], steps[n - 1];
      assert Enabled(operatorNamespace, stored, step) && states[n] == Apply(operatorNamespace, stored, step);
      if Exclusive(stored) {
        if step.Failed? {
          FailedKeepsExclusive(operatorNamespace, stored, step.key);
        } else {
          StepKeepsExclusive(operatorNamespace, stored, step);
        }
      }
    }
  }

  /** From nothing, four steps lead to two live internal clusters in one namespace. */
  lemma FailedValidationsBreakElection() returns (states: seq<Stored>, steps: seq<Step>)
    ensures IsRun("ns", states, steps) && states[0] == map[] && |steps| == 4
    ensures !Exclusive(states[4])
  {
    var a := StorageCluster("ns", "a", false, 0, false, Empty);
    var b := StorageCluster("ns", "b", false, 0, false, Empty);
    steps := [Create(a), Create(b), Failed(a.Key()), Failed(b.Key())];
    assert "a"[0] != "b"[0];
    var s0: Stored := map[];
    var s1 := Apply("ns", s0, steps[0]);
    var s2 := Apply("ns", s1, steps[1]);
    var s3 := Apply("ns", s2, steps[2]);
    var s4 := Apply("ns", s3, steps[3]);
    states := [s0, s1, s2, s3, s4];
    assert s4[a.Key()].Live() && s4[b.Key()].Live() && Conflict(s4[a.Key()], s4[b.Key()]);
  }

  // ----- who wins

  /** Some internal clusters wait for the election in the operator's namespace; external
      ones live elsewhere under other names. */
  ghost predicate Candidates(operatorNamespace: string, stored: Stored)
  {
    && Keyed(stored)
    && (forall key :: key in stored && !stored[key].external ==>
          stored[key].namespace == operatorNamespace && !stored[key].deleting)
    && (forall key :: key in stored && stored[key].external ==> stored[key].namespace != operatorNamespace)
    && (forall a, b :: a in stored && b in stored && stored[a].external && !stored[b].external ==>
          stored[a].name != stored[b].name)
  }

  ghost predicate First(stored: Stored, key: (string, string))
  {
    && key in stored && !stored[key].external
    && forall other :: other in stored && !stored[other].external && other != key ==>
         Earlier(stored[key], stored[other])
  }

  lemma EarlierTotal(a: StorageCluster, b: StorageCluster)
    requires a.name != b.name
    ensures Earlier(a, b) <==> !Earlier(b, a)
  {
    LessTotal(a.name, b.name);
    if Less(a.name, b.name) { LessAsymmetric(a.name, b.name); }
  }

  lemma CandidateNames(operatorNamespace: string, stored: Stored, key: (string, string))
    requires Candidates(operatorNamespace, stored) && key in stored && !stored[key].external
    ensures !SameName(stored, stored[key].name)
    ensures forall other :: other in stored && !stored[other].external && other != key ==>
              stored[other].name != stored[key].name
  {
    forall other | other in stored && other != key ensures stored[other].name != stored[key].name {
      if !stored[other].external {
        assert stored[other].Key() == other && stored[key].Key() == key;
      }
    }
  }

  /** As long as an internal cluster waits, one of them is first. */
  lemma {:induction false} FirstExists(stored: Stored, keys: set<(string, string)>) returns (first: (string, string))
    requires keys != {} && forall key :: key in keys ==> key in stored
    requires forall a, b :: a in keys && b in keys && a != b ==> stored[a].name != stored[b].name
    ensures first in keys && forall other :: other in keys && other != first ==> Earlier(stored[first], stored[other])
  {
    var x :| x in keys;
    var rest := keys - {x};
    if rest == {} {
      assert keys == {x};
      first := x;
    } else {
      var second := FirstExists(stored, rest);
      EarlierTotal(stored[x], stored[second]);
      first := if Earlier(stored[x], stored[second]) then x else second;
      forall other | other in keys && other != first ensures Earlier(stored[first], stored[other]) {
        if other != x && other != second {
          assert other in rest && Earlier(stored[second], stored[other]);
          if first == x { EarlierTransitive(stored[x], stored[second], stored[other]); }
        }
      }
    }
  }

  lemma EarlierTransitive(a: StorageCluster, b: StorageCluster, c: StorageCluster)
    requires Earlier(a, b) && Earlier(b, c)
    ensures Earlier(a, c)
  {
    if a.created == b.created == c.created {
      LessTransitive(a.name, b.name, c.name);
    }
  }

  /** Exactly one of the waiting internal clusters is active. None was created before it,
      and one created at the same time has a name that sorts after its name. */
  lemma ExactlyOneActive(operatorNamespace: string, stored: Stored) returns (first: (string, string))
    requires Candidates(operatorNamespace, stored)
    requires exists key :: key in stored && !stored[key].external
    requires forall key :: key in stored && !stored[key].external ==> stored[key].phase == Empty
    ensures First(stored, first)
    ensures forall key :: key in stored && !stored[key].external ==>
                            (Active(operatorNamespace, stored, stored[key]) <==> key == first)
    ensures forall key :: key in stored && !stored[key].external && key != first ==>
              stored[first].created < stored[key].created ||
              (stored[first].created == stored[key].created &&
               var (a, b) := (stored[first].name, stored[key].name);
               a <= b || exists i :: 0 <= i < |a| && i < |b| && a[..i] == b[..i] && a[i] < b[i])
  {
    var keys := set key | key in stored && !stored[key].external;
    forall a, b | a in keys && b in keys && a != b ensures stored[a].name != stored[b].name {
      CandidateNames(operatorNamespace, stored, b);
    }
    first := FirstExists(stored, keys);
    forall key | key in stored && !stored[key].external
      ensures Active(operatorNamespace, stored, stored[key]) <==> key == first
    {
      ActiveIffFirst(operatorNamespace, stored, key);
      assert key in keys;
      if key != first {
        CandidateNames(operatorNamespace, stored, first);
        EarlierTotal(stored[first], stored[key]);
      }
    }
    forall key | key in stored { LessIff(stored[first].name, stored[key].name); }
  }

  /** Among waiting internal clusters exactly the first by creation time and name is active. */
  lemma ActiveIffFirst(operatorNamespace: string, stored: Stored, key: (string, string))
    requires Candidates(operatorNamespace, stored) && key in stored && !stored[key].external
    requires forall other :: other in stored && !stored[other].external ==> stored[other].phase == Empty
    ensures Active(operatorNamespace, stored, stored[key]) <==> First(stored, key)
  {
    CandidateNames(operatorNamespace, stored, key);
    forall other | other in stored && !stored[other].external && other != key
      ensures Yields(stored[other], stored[key]) <==> Earlier(stored[key], stored[other])
    {
      EarlierTotal(stored[key], stored[other]);
    }
    assert Yields(stored[key], stored[key]);
    forall other | other in stored && Rival(stored[other], stored[key]) ensures !stored[other].external {
    }
    if Active(operatorNamespace, stored, stored[key]) {
      forall other | other in stored && !stored[other].external && other != key
        ensures Earlier(stored[key], stored[other])
      {
        assert Rival(stored[other], stored[key]);
      }
    }
  }

  /** The state of an election whose winner is `first`. */
  ghost predicate Decided(stored: Stored, first: (string, string))
  {
    && First(stored, first) && stored[first].phase != Ignored
    && forall key :: key in stored && !stored[key].external && key != first ==> !stored[key].Live()
  }

  lemma DecidedStep(operatorNamespace: string, stored: Stored, step: Step, first: (string, string))
    requires Candidates(operatorNamespace, stored) && Decided(stored, first)
    requires step.Reconcile? && Enabled(operatorNamespace, stored, step)
    ensures var after := Apply(operatorNamespace, stored, step);
            Candidates(operatorNamespace, after) && Decided(after, first)
  {
    var key := step.key;
    if !stored[key].external {
      CandidateNames(operatorNamespace, stored, key);
      if key == first {
        if stored[first].phase == Empty {
          FirstIsActive(operatorNamespace, stored, first);
        }
      } else if stored[key].phase == Empty {
        EarlierTotal(stored[first], stored[key]);
        assert Rival(stored[first], stored[key]) && !Yields(stored[first], stored[key]);
        assert !Active(operatorNamespace, stored, stored[key]);
      }
    }
  }

  lemma FirstIsActive(operatorNamespace: string, stored: Stored, first: (string, string))
    requires Candidates(operatorNamespace, stored) && Decided(stored, first)
    ensures Active(operatorNamespace, stored, stored[first])
  {
    CandidateNames(operatorNamespace, stored, first);
    forall other | other in stored && Rival(stored[other], stored[first]) ensures Yields(stored[other], stored[first]) {
      if other != first {
        EarlierTotal(stored[first], stored[other]);
      }
    }
  }

  /** In whatever order and however often waiting clusters are reconciled, the first never
      loses the election and no other one ever goes live. */
  lemma {:induction false} FirstWins(operatorNamespace: string, states: seq<Stored>, steps: seq<Step>, n: nat,
                                     first: (string, string))
    requires IsRun(operatorNamespace, states, steps) && n < |states|
    requires forall i :: 0 <= i < |steps| ==> steps[i].Reconcile?
    requires Candidates(operatorNamespace, states[0]) && First(states[0], first)
    requires forall key :: key in states[0] && !states[0][key].external ==> states[0][key].phase == Empty
    ensures Candidates(operatorNamespace, states[n]) && Decided(states[n], first)
  {
    if n > 0 {
      FirstWins(operatorNamespace, states, steps, n - 1, first);
      DecidedStep(operatorNamespace, states[n - 1], steps[n - 1], first);
    }
  }

  // ----- the upgrade gate

  /** With the guarantee of the election, the check that skips every cluster of the same
      name or namespace still sees all that matters: it passes exactly when every other
      live cluster is Ready and no cluster of another name and namespace is without a live
      phase. */
  lemma UpgradeGate(stored: Stored, key: (string, string))
    requires Keyed(stored) && Exclusive(stored) && key in stored && stored[key].Live()
    ensures OthersReady(stored, stored[key]) <==>
            && (forall other :: other in stored && other != key && stored[other].Live() ==>
                 stored[other].phase == Ready)
            && (forall other | other in stored ::
                  stored[other].name == stored[key].name || stored[other].namespace == stored[key].namespace ||
                  stored[other].Live())
  {
    forall other | other in stored && other != key && stored[other].Live()
      ensures stored[other].name != stored[key].name && stored[other].namespace != stored[key].namespace
    {
      assert !Conflict(stored[key], stored[other]);
    }
  }

  /** Without it the check can pass beside a live cluster that is not Ready. */
  lemma UpgradeGateNeedsElection() returns (stored: Stored, key: (string, string), other: (string, string))
    ensures Keyed(stored) && !Exclusive(stored) && key in stored && other in stored && other != key
    ensures OthersReady(stored, stored[key]) && stored[other].Live() && stored[other].phase != Ready
  {
    var a := StorageCluster("ns", "a", false, 0, false, Ready);
    var b := StorageCluster("ns", "b", false, 0, false, Error);
    assert "a"[0] != "b"[0];
    stored, key, other := map[a.Key() := a, b.Key() := b], a.Key(), b.Key();
    assert stored[other] == b && Conflict(stored[key], stored[other]);
  }
}
