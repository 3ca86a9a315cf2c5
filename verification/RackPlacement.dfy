/** Where a node without a rack goes: the specification of `determinePlacementRack`
    and of the loop in `ensureNodeRacks`, and the methods that meet it. */
module RackPlacement {
  import opened Collections
  import opened Text
  import opened Nodes
  import opened NodeTopologyMaps

  /** Rack names to the names of the nodes in them. */
  type Racks = map<string, seq<string>>

  function RackName(i: nat): string
  {
    "rack" + Decimal(i)
  }

  lemma RackNameInjective(i: nat, j: nat)
    requires RackName(i) == RackName(j)
    ensures i == j
  {
    assert Decimal(i) == RackName(i)[4..] && Decimal(j) == RackName(j)[4..];
    DecimalInjective(i, j);
  }

  // ----- the search for a fresh name

  ghost predicate NumberedFrom(rack: string, i: nat)
  {
    exists j: nat :: i <= j && rack == RackName(j)
  }

  /** The taken names the search can still run into. */
  ghost function TakenFrom(racks: Racks, i: nat): (taken: set<string>)
    ensures |taken| <= |racks|
  {
    var taken := set rack | rack in racks.Keys && NumberedFrom(rack, i);
    SubsetSize(taken, racks.Keys);
    taken
  }

  lemma TakenShrinks(racks: Racks, i: nat)
    requires RackName(i) in racks
    ensures |TakenFrom(racks, i + 1)| < |TakenFrom(racks, i)|
  {
    var now, next := TakenFrom(racks, i), TakenFrom(racks, i + 1);
    assert RackName(i) in now;
    if RackName(i) in next {
      var j: nat :| i + 1 <= j && RackName(i) == RackName(j);
      RackNameInjective(i, j);
    }
    forall rack | rack in next ensures rack in now {
      var j: nat :| i + 1 <= j && rack == RackName(j);
      assert i <= j;
    }
    SubsetSize(next, now);
  }

  /** The least free number from `i` on. The search ends because every step passes a
      taken name that it never meets again; so it takes at most `|racks|` steps. */
  function FirstFree(racks: Racks, i: nat): (free: nat)
    ensures i <= free <= i + |racks|
    ensures RackName(free) !in racks
    ensures forall j: nat :: i <= j < free ==> RackName(j) in racks
    decreases |TakenFrom(racks, i)|
  {
    FirstFreeBound(racks, i);
    FirstFreeFrom(racks, i)
  }

  function FirstFreeFrom(racks: Racks, i: nat): (free: nat)
    decreases |TakenFrom(racks, i)|
  {
    if RackName(i) !in racks then i
    else
      TakenShrinks(racks, i);
      FirstFreeFrom(racks, i + 1)
  }

  lemma {:induction false} FirstFreeBound(racks: Racks, i: nat)
    ensures i <= FirstFreeFrom(racks, i) <= i + |TakenFrom(racks, i)|
    ensures RackName(FirstFreeFrom(racks, i)) !in racks
    ensures forall j: nat :: i <= j < FirstFreeFrom(racks, i) ==> RackName(j) in racks
    decreases |TakenFrom(racks, i)|
  {
    if RackName(i) in racks {
      TakenShrinks(racks, i);
      FirstFreeBound(racks, i + 1);
    }
  }

  // ----- the choice of a rack

  /** Some node listed in the rack carries zone `z`; a listed name that is no storage
      node is passed over. */
  ghost predicate ZoneInRack(nodes: seq<Node>, names: seq<string>, z: string)
  {
    exists i :: 0 <= i < |names| && NameHasZone(nodes, names[i], z)
  }

  ghost predicate NameHasZone(nodes: seq<Node>, name: string, z: string)
  {
    var n := FindNode(nodes, name);
    n.Some? && HasZone(n.value, z)
  }

  /** Fewer nodes first, equal counts by name. */
  ghost predicate Before(racks: Racks, a: string, b: string)
    requires a in racks && b in racks
  {
    |racks[a]| < |racks[b]| || (|racks[a]| == |racks[b]| && Less(a, b))
  }

  ghost predicate IsLeast(racks: Racks, candidates: set<string>, rack: string)
    requires candidates <= racks.Keys
  {
    rack in candidates && forall other :: other in candidates && other != rack ==> Before(racks, rack, other)
  }

  lemma LeastUnique(racks: Racks, candidates: set<string>, a: string, b: string)
    requires candidates <= racks.Keys
    requires IsLeast(racks, candidates, a) && IsLeast(racks, candidates, b)
    ensures a == b
  {
    if a != b {
      assert Before(racks, a, b) && Before(racks, b, a);
      LessAsymmetric(a, b);
    }
  }

  ghost function LeastRack(racks: Racks, candidates: set<string>): (rack: string)
    requires candidates != {} && candidates <= racks.Keys
    ensures IsLeast(racks, candidates, rack)
  {
    LeastExists(racks, candidates);
    var rack :| IsLeast(racks, candidates, rack);
    rack
  }

  lemma {:induction false} LeastExists(racks: Racks, candidates: set<string>)
    requires candidates != {} && candidates <= racks.Keys
    ensures exists rack :: IsLeast(racks, candidates, rack)
  {
    var x :| x in candidates;
    var rest := candidates - {x};
    if rest == {} {
      assert candidates == {x};
      assert IsLeast(racks, candidates, x);
    } else {
      LeastExists(racks, rest);
      var y :| IsLeast(racks, rest, y);
      LessTotal(x, y);
      if Before(racks, y, x) {
        assert IsLeast(racks, candidates, y);
      } else {
        forall other | other in candidates && other != x ensures Before(racks, x, other) {
          if other != y {
            assert Before(racks, y, other);
            if Less(x, y) && Less(y, other) { LessTransitive(x, y, other); }
          }
        }
        assert IsLeast(racks, candidates, x);
      }
    }
  }

  /** The least rack in plain terms: no candidate has fewer nodes, and among those with as
      few its name is a prefix of the other name or has the smaller character where the two
      first differ. */
  lemma LeastIff(racks: Racks, candidates: set<string>, rack: string)
    requires candidates <= racks.Keys
    ensures IsLeast(racks, candidates, rack) <==>
              && rack in candidates
              && forall other :: other in candidates && other != rack ==>
                   |racks[rack]| < |racks[other]| ||
                   (|racks[rack]| == |racks[other]| &&
                    (rack <= other ||
                     exists i :: 0 <= i < |rack| && i < |other| && rack[..i] == other[..i] && rack[i] < other[i]))
  {
    forall other | other in candidates { LessIff(rack, other); }
  }

  /** Below the minimum number of racks one empty rack is added first. */
  function Widen(racks: Racks, minRacks: int): Racks
  {
    if |racks| < minRacks then racks[RackName(FirstFree(racks, 0)) := []] else racks
  }

  /** The racks a node of zone `z` may join: the empty ones and those that already hold
      a node of that zone. */
  ghost function Eligible(nodes: seq<Node>, racks: Racks, z: string): (racks': set<string>)
    ensures racks' <= racks.Keys
  {
    set rack | rack in racks.Keys && (racks[rack] == [] || ZoneInRack(nodes, racks[rack], z))
  }

  /** The racks after the search for candidates, and the candidates. */
  ghost function Candidates(nodes: seq<Node>, racks: Racks, z: string): (r: (Racks, set<string>))
    ensures r.1 <= r.0.Keys
    ensures racks != map[] ==> r.1 != {}
  {
    if z == "" then (racks, racks.Keys)
    else if Eligible(nodes, racks, z) != {} then (racks, Eligible(nodes, racks, z))
    else
      var newRack := RackName(FirstFree(racks, |racks|));
      (racks[newRack := []], {newRack})
  }

  /** The whole effect of `determinePlacementRack`: the racks with any rack invented on
      the way, and the chosen rack. */
  ghost function Place(nodes: seq<Node>, z: string, minRacks: int, racks: Racks): (r: (Racks, string))
    requires minRacks >= 1
    ensures r.1 in r.0
  {
    var (racks', candidates) := Candidates(nodes, Widen(racks, minRacks), z);
    (racks', LeastRack(racks', candidates))
  }

  ghost function AddToRack(nodes: seq<Node>, name: string, z: string, minRacks: int, racks: Racks): Racks
    requires minRacks >= 1
  {
    var (racks', rack) := Place(nodes, z, minRacks, racks);
    racks'[rack := racks'[rack] + [name]]
  }

  ghost predicate HasRack(racks: Racks, name: string)
  {
    exists rack :: rack in racks && name in racks[rack]
  }

  /** `z` is what the scan of the node's labels may come up with: one of its zones, or
      nothing if it has none. */
  ghost predicate IsTargetZone(node: Node, z: string)
  {
    if z == "" then forall y :: !HasZone(node, y) else HasZone(node, z)
  }

  /** One turn of the loop over the nodes: a node that is in some rack stays there, any
      other node is placed. */
  ghost predicate Step(nodes: seq<Node>, node: Node, minRacks: int, before: Racks, after: Racks)
    requires minRacks >= 1
  {
    if HasRack(before, node.name) then after == before
    else exists z :: IsTargetZone(node, z) && after == AddToRack(nodes, node.name, z, minRacks, before)
  }

  ghost predicate StepAt(nodes: seq<Node>, minRacks: int, states: seq<Racks>, i: nat)
    requires minRacks >= 1 && i + 1 < |states| <= |nodes| + 1
  {
    Step(nodes, nodes[i], minRacks, states[i], states[i + 1])
  }

  /** `states[i]` are the racks before node `i` is looked at. */
  ghost predicate IsRun(nodes: seq<Node>, minRacks: int, states: seq<Racks>)
    requires minRacks >= 1
  {
    && 1 <= |states| <= |nodes| + 1
    && forall i :: 0 <= i < |states| - 1 ==> StepAt(nodes, minRacks, states, i)
  }

  /** With one zone per node the run is determined by its start: no map iteration order
      can be seen in where the nodes end up. */
  lemma {:induction false} RunDeterministic(nodes: seq<Node>, minRacks: int, a: seq<Racks>, b: seq<Racks>, n: nat)
    requires minRacks >= 1 && IsRun(nodes, minRacks, a) && IsRun(nodes, minRacks, b)
    requires forall node :: node in nodes ==> OneZone(node)
    requires n < |a| && n < |b| && a[0] == b[0]
    ensures a[n] == b[n]
  {
    if n > 0 {
      RunDeterministic(nodes, minRacks, a, b, n - 1);
      assert StepAt(nodes, minRacks, a, n - 1);
      assert StepAt(nodes, minRacks, b, n - 1);
      StepDeterministic(nodes, nodes[n - 1], minRacks, a[n - 1], a[n], b[n]);
    }
  }

  lemma StepDeterministic(nodes: seq<Node>, node: Node, minRacks: int, before: Racks, a: Racks, b: Racks)
    requires minRacks >= 1 && OneZone(node)
    requires Step(nodes, node, minRacks, before, a) && Step(nodes, node, minRacks, before, b)
    ensures a == b
  {
    if !HasRack(before, node.name) {
      var y :| IsTargetZone(node, y) && a == AddToRack(nodes, node.name, y, minRacks, before);
      var z :| IsTargetZone(node, z) && b == AddToRack(nodes, node.name, z, minRacks, before);
      assert y == z;
    }
  }

  /** The names of invented racks. Below the minimum, the rack that is added has the least
      free number. A rack added because no other fits the zone has the least free number that
      is at least the number of racks. */
  lemma InventedNames(nodes: seq<Node>, racks: Racks, z: string, minRacks: int)
    ensures |racks| < minRacks ==>
              exists i: nat ::
                Widen(racks, minRacks) == racks[RackName(i) := []] && RackName(i) !in racks &&
                forall j: nat :: j < i ==> RackName(j) in racks
    ensures |racks| >= minRacks ==> Widen(racks, minRacks) == racks
    ensures z != "" && Eligible(nodes, racks, z) == {} ==>
              exists i: nat ::
                Candidates(nodes, racks, z) == (racks[RackName(i) := []], {RackName(i)}) && |racks| <= i &&
                RackName(i) !in racks && forall j: nat :: |racks| <= j < i ==> RackName(j) in racks
  {
    var i, k := FirstFree(racks, 0), FirstFree(racks, |racks|);
    assert RackName(i) !in racks && RackName(k) !in racks;
  }

  lemma FirstOfThreeIsLeast(racks: Racks, a: string, b: string, c: string)
    requires racks.Keys == {a, b, c} && |racks[a]| == |racks[b]| == |racks[c]|
    requires |a| == |b| == |c| > 0 && a[..|a| - 1] == b[..|a| - 1] == c[..|a| - 1]
    requires a[|a| - 1] < b[|a| - 1] && a[|a| - 1] < c[|a| - 1]
    ensures IsLeast(racks, racks.Keys, a)
  {
    LeastIff(racks, racks.Keys, a);
  }

  /** Where three racks hold one node each, a fourth node without a zone joins rack0. */
  lemma FourthNodeJoinsTheFirstRack(nodes: seq<Node>, node: Node)
    requires forall z :: !HasZone(node, z)
    ensures var racks: Racks := map["rack0" := ["a"], "rack1" := ["b"], "rack2" := ["c"]];
            forall z :: IsTargetZone(node, z) ==> Place(nodes, z, 3, racks) == (racks, "rack0")
  {
    var racks: Racks := map["rack0" := ["a"], "rack1" := ["b"], "rack2" := ["c"]];
    var a, b, c := "rack0", "rack1", "rack2";
    assert a[4] < b[4] < c[4];
    assert racks.Keys == {a, b, c};
    assert |racks| == |racks.Keys| == 3;
    FirstOfThreeIsLeast(racks, a, b, c);
    LeastUnique(racks, racks.Keys, a, LeastRack(racks, racks.Keys));
  }

  // ----- the methods

  method TargetZone(node: Node) returns (targetAZ: string)
    ensures IsTargetZone(node, targetAZ)
  {
    targetAZ := "";
    var todo := node.labels.Keys;
    while todo != {}
      invariant todo <= node.labels.Keys && targetAZ == ""
      invariant forall lbl :: lbl in node.labels.Keys - todo && IsZoneLabel(lbl) ==> node.labels[lbl] == ""
    {
      var lbl :| lbl in todo;
      todo := todo - {lbl};
      if IsZoneLabel(lbl) {
        targetAZ := node.labels[lbl];
      }
      if targetAZ != "" { return; }
    }
  }

  /** The triple loop over the nodes of one rack. */
  method RackHoldsZone(nodes: seq<Node>, nodeNames: seq<string>, targetAZ: string) returns (validRack: bool)
    requires targetAZ != ""
    ensures validRack == ZoneInRack(nodes, nodeNames, targetAZ)
  {
    for i := 0 to |nodeNames|
      invariant forall k :: 0 <= k < i ==> !NameHasZone(nodes, nodeNames[k], targetAZ)
    {
      var n := FindNode(nodes, nodeNames[i]);
      if n.Some? {
        var todo := n.value.labels.Keys;
        while todo != {}
          invariant todo <= n.value.labels.Keys
          invariant forall lbl :: lbl in n.value.labels.Keys - todo && IsZoneLabel(lbl) ==>
                                    n.value.labels[lbl] != targetAZ
        {
          var lbl :| lbl in todo;
          todo := todo - {lbl};
          if IsZoneLabel(lbl) && n.value.labels[lbl] == targetAZ {
            assert NameHasZone(nodes, nodeNames[i], targetAZ);
            return true;
          }
        }
      }
    }
    return false;
  }

  /** In a sorted list, a rack that has the fewest nodes and stands before all others with
      as few is the least of the list. */
  lemma FirstFewestIsLeast(racks: Racks, sorted: seq<string>, at: nat, candidates: set<string>)
    requires Sorted(sorted) && at < |sorted| && forall r :: r in sorted <==> r in candidates
    requires candidates <= racks.Keys
    requires forall j :: 0 <= j < |sorted| ==> sorted[j] in racks && |racks[sorted[at]]| <= |racks[sorted[j]]|
    requires forall j :: 0 <= j < at ==> |racks[sorted[at]]| < |racks[sorted[j]]|
    ensures IsLeast(racks, candidates, sorted[at])
  {
    forall other | other in candidates && other != sorted[at] ensures Before(racks, sorted[at], other) {
      var j :| 0 <= j < |sorted| && sorted[j] == other;
      LessTotal(sorted[at], other);
    }
  }

  /** `sort.Strings(rackList)` and the scan for the first rack with the fewest nodes:
      the order in which the racks were collected does not matter. */
  method FewestNodes(racks: Racks, rackList: seq<string>, ghost candidates: set<string>) returns (rack: string)
    requires rackList != [] && candidates <= racks.Keys
    requires forall r :: r in rackList <==> r in candidates
    ensures IsLeast(racks, candidates, rack)
  {
    var sorted := SortStrings(rackList);
    SortKeepsElements(rackList);
    assert rackList[0] in sorted;
    forall j | 0 <= j < |sorted| ensures sorted[j] in racks {
      assert sorted[j] in candidates;
    }
    rack := sorted[0];
    ghost var at := 0;
    for i := 0 to |sorted|
      invariant 0 <= at < |sorted| && rack == sorted[at]
      invariant forall j :: 0 <= j < i ==> |racks[rack]| <= |racks[sorted[j]]|
      invariant forall j :: 0 <= j < at ==> |racks[rack]| < |racks[sorted[j]]|
    {
      if |racks[sorted[i]]| < |racks[rack]| {
        rack, at := sorted[i], i;
      }
    }
    FirstFewestIsLeast(racks, sorted, at, candidates);
  }

  method DeterminePlacementRack(nodes: seq<Node>, node: Node, minRacks: int, nodeRacks: NodeTopologyMap)
    returns (rack: string, targetAZ: string)
    requires minRacks >= 1
    modifies nodeRacks
    ensures IsTargetZone(node, targetAZ)
    ensures (nodeRacks.Labels, rack) == Place(nodes, targetAZ, minRacks, old(nodeRacks.Labels))
  {
    ghost var before := nodeRacks.Labels;
    if |nodeRacks.Labels| < minRacks {
      var i := 0;
      ghost var free := FirstFree(before, 0);
      while i < minRacks
        invariant 0 <= i <= free && nodeRacks.Labels == before
      {
        var newRack := RackName(i);
        if newRack !in nodeRacks.Labels {
          nodeRacks.Labels := nodeRacks.Labels[newRack := []];
          break;
        }
        i := i + 1;
      }
    }
    assert nodeRacks.Labels == Widen(before, minRacks);
    ghost var widened := nodeRacks.Labels;

    targetAZ := TargetZone(node);
    var rackList := [];
    if targetAZ != "" {
      var todo := nodeRacks.Labels.Keys;
      while todo != {}
        invariant todo <= widened.Keys && nodeRacks.Labels == widened
        invariant forall r :: r in rackList <==> r in Eligible(nodes, widened, targetAZ) - todo
      {
        var r :| r in todo;
        todo := todo - {r};
        if nodeRacks.Labels[r] == [] {
          rackList := rackList + [r];
          continue;
        }
        var validRack := RackHoldsZone(nodes, nodeRacks.Labels[r], targetAZ);
        if validRack {
          rackList := rackList + [r];
        }
      }
      if |rackList| == 0 {
        assert Eligible(nodes, widened, targetAZ) == {};
        var i := |nodeRacks.Labels|;
        ghost var free := FirstFree(widened, |widened|);
        while true
          invariant |widened| <= i <= free && nodeRacks.Labels == widened
          decreases free - i
        {
          var newRack := RackName(i);
          if newRack !in nodeRacks.Labels {
            nodeRacks.Labels := nodeRacks.Labels[newRack := []];
            rackList := rackList + [newRack];
            assert i == free;
            break;
          }
          i := i + 1;
        }
      } else {
        assert rackList[0] in rackList && rackList[0] in Eligible(nodes, widened, targetAZ);
      }
    } else {
      var todo := nodeRacks.Labels.Keys;
      while todo != {}
        invariant todo <= widened.Keys && nodeRacks.Labels == widened
        invariant forall r :: r in rackList <==> r in widened.Keys - todo
      {
        var r :| r in todo;
        todo := todo - {r};
        rackList := rackList + [r];
      }
    }
    ghost var candidates := Candidates(nodes, widened, targetAZ).1;
    assert nodeRacks.Labels == Candidates(nodes, widened, targetAZ).0;
    assert |before| >= minRacks || RackName(FirstFree(before, 0)) in widened;
    assert candidates != {};
    ghost var x: string :| x in candidates;
    assert x in rackList;
    rack := FewestNodes(nodeRacks.Labels, rackList, candidates);
    LeastUnique(nodeRacks.Labels, candidates, rack, LeastRack(nodeRacks.Labels, candidates));
  }
}
