/** What rack placement keeps over any number of placed nodes. The properties are proved
    for every run of an abstract allocator: a node without a rack joins a smallest rack
    open to its zone, or opens a new one. `RunIsOpen` shows that the operator's loop is
    such a run. */
module RackProperties {
  import opened Collections
  import opened Text
  import opened Nodes
  import opened NodeTopologyMaps
  import opened RackPlacement

  ghost predicate NoEmptyRack(racks: Racks)
  {
    forall rack :: rack in racks ==> racks[rack] != []
  }

  /** No rack holds nodes of two different zones. */
  ghost predicate ZonesApart(nodes: seq<Node>, racks: Racks)
  {
    forall rack, y, z :: rack in racks && ZoneInRack(nodes, racks[rack], y) && ZoneInRack(nodes, racks[rack], z) ==>
        y == z
  }

  /** Two racks of one zone differ in size by at most one. */
  ghost predicate Balanced(nodes: seq<Node>, racks: Racks)
  {
    forall a, b, z :: a in racks && b in racks && ZoneInRack(nodes, racks[a], z) && ZoneInRack(nodes, racks[b], z) ==>
                        |racks[a]| <= |racks[b]| + 1
  }

  ghost predicate AllSingle(racks: Racks)
  {
    forall rack :: rack in racks ==> |racks[rack]| == 1
  }

  /** No node is listed twice, in one rack or in two. */
  ghost predicate OneRackEach(racks: Racks)
  {
    && (forall rack :: rack in racks ==> NoDuplicates(racks[rack]))
    && (forall a, b, name :: a in racks && b in racks && name in racks[a] && name in racks[b] ==> a == b)
  }

  /** Every rack of the first map is still there with its nodes in front. */
  ghost predicate Extends(before: Racks, after: Racks)
  {
    forall rack :: rack in before ==> rack in after && before[rack] <= after[rack]
  }

  ghost predicate AllOneZone(nodes: seq<Node>)
  {
    forall n :: n in nodes ==> OneZone(n)
  }

  // ----- the abstract allocator

  /** `rack` may take a node of zone `z` (or of no zone). An existing rack must hold the
      zone and be smallest among those that do, with the minimum number of racks reached;
      a new rack is opened below that minimum, or when no rack holds the zone. */
  ghost predicate Open(nodes: seq<Node>, z: string, minRacks: int, racks: Racks, rack: string)
  {
    if rack in racks then
      && |racks| >= minRacks
      && (z == "" || ZoneInRack(nodes, racks[rack], z))
      && (forall other :: other in racks && (z == "" || ZoneInRack(nodes, racks[other], z)) ==>
                            |racks[rack]| <= |racks[other]|)
    else
      || |racks| < minRacks
      || (z != "" && forall other :: other in racks ==> !ZoneInRack(nodes, racks[other], z))
  }

  function Join(racks: Racks, rack: string, name: string): Racks
  {
    racks[rack := ValuesOf(racks, rack) + [name]]
  }

  ghost predicate OpenStep(nodes: seq<Node>, node: Node, minRacks: int, before: Racks, after: Racks)
  {
    if HasRack(before, node.name) then after == before
    else exists rack, z :: IsTargetZone(node, z) && Joins(nodes, node.name, z, minRacks, before, rack, after)
  }

  ghost predicate Joins(nodes: seq<Node>, name: string, z: string, minRacks: int, before: Racks, rack: string,
                        after: Racks)
  {
    Open(nodes, z, minRacks, before, rack) && after == Join(before, rack, name)
  }

  ghost predicate OpenStepAt(nodes: seq<Node>, minRacks: int, states: seq<Racks>, i: nat)
    requires i + 1 < |states| <= |nodes| + 1
  {
    OpenStep(nodes, nodes[i], minRacks, states[i], states[i + 1])
  }

  ghost predicate IsOpenRun(nodes: seq<Node>, minRacks: int, states: seq<Racks>)
  {
    && 1 <= |states| <= |nodes| + 1
    && forall i :: 0 <= i < |states| - 1 ==> OpenStepAt(nodes, minRacks, states, i)
  }

  // ----- the operator's loop is such a run

  lemma PlaceIsOpen(nodes: seq<Node>, z: string, minRacks: int, racks: Racks)
    requires minRacks >= 1 && NoEmptyRack(racks)
    ensures var (racks', rack) := Place(nodes, z, minRacks, racks);
            && Open(nodes, z, minRacks, racks, rack)
            && racks' == if rack in racks then racks else racks[rack := []]
  {
    var widened := Widen(racks, minRacks);
    var (racks', candidates) := Candidates(nodes, widened, z);
    var rack := LeastRack(racks', candidates);
    if |racks| < minRacks {
      var newRack := RackName(FirstFree(racks, 0));
      assert newRack in Eligible(nodes, widened, z);
      assert newRack in candidates && racks' == widened;
      assert rack != newRack ==> Before(racks', rack, newRack);
    } else if z != "" && Eligible(nodes, racks, z) == {} {
      forall other | other in racks ensures !ZoneInRack(nodes, racks[other], z) {
        assert other !in Eligible(nodes, racks, z);
      }
    } else {
      forall other | other in racks && (z == "" || ZoneInRack(nodes, racks[other], z))
        ensures |racks[rack]| <= |racks[other]|
      {
        assert other in candidates;
        if other != rack { assert Before(racks', rack, other); }
      }
    }
  }

  lemma AddToRackJoins(nodes: seq<Node>, name: string, z: string, minRacks: int, before: Racks)
    requires minRacks >= 1 && NoEmptyRack(before)
    ensures var rack := Place(nodes, z, minRacks, before).1;
            Joins(nodes, name, z, minRacks, before, rack, AddToRack(nodes, name, z, minRacks, before))
  {
    PlaceIsOpen(nodes, z, minRacks, before);
    var (racks', rack) := Place(nodes, z, minRacks, before);
    assert racks'[rack] == ValuesOf(before, rack);
  }

  lemma StepIsOpen(nodes: seq<Node>, node: Node, minRacks: int, before: Racks, after: Racks)
    requires minRacks >= 1 && NoEmptyRack(before) && Step(nodes, node, minRacks, before, after)
    ensures OpenStep(nodes, node, minRacks, before, after)
  {
    if !HasRack(before, node.name) {
      var z :| IsTargetZone(node, z) && after == AddToRack(nodes, node.name, z, minRacks, before);
      AddToRackJoins(nodes, node.name, z, minRacks, before);
    }
  }

  lemma {:induction false} RunStaysOpen(nodes: seq<Node>, minRacks: int, states: seq<Racks>, n: nat)
    requires minRacks >= 1 && IsRun(nodes, minRacks, states) && NoEmptyRack(states[0]) && n < |states|
    ensures NoEmptyRack(states[n])
    ensures n > 0 ==> OpenStepAt(nodes, minRacks, states, n - 1)
  {
    if n > 0 {
      RunStaysOpen(nodes, minRacks, states, n - 1);
      assert StepAt(nodes, minRacks, states, n - 1);
      StepIsOpen(nodes, nodes[n - 1], minRacks, states[n - 1], states[n]);
      StepGrows(nodes, nodes[n - 1], minRacks, states[n - 1], states[n]);
    }
  }

  /** Every run of the operator's loop from racks without an empty one is a run of the
      abstract allocator, and never leaves an empty rack behind. */
  lemma RunIsOpen(nodes: seq<Node>, minRacks: int, states: seq<Racks>)
    requires minRacks >= 1 && IsRun(nodes, minRacks, states) && NoEmptyRack(states[0])
    ensures IsOpenRun(nodes, minRacks, states) && NoEmptyRack(states[|states| - 1])
  {
    forall i | 0 <= i < |states| - 1 ensures OpenStepAt(nodes, minRacks, states, i) {
      RunStaysOpen(nodes, minRacks, states, i + 1);
    }
    RunStaysOpen(nodes, minRacks, states, |states| - 1);
  }

  lemma StepGrows(nodes: seq<Node>, node: Node, minRacks: int, before: Racks, after: Racks)
    requires NoEmptyRack(before) && OpenStep(nodes, node, minRacks, before, after)
    ensures NoEmptyRack(after) && Extends(before, after)
  {
    if !HasRack(before, node.name) {
      var rack, z :| IsTargetZone(node, z) && Joins(nodes, node.name, z, minRacks, before, rack, after);
      assert after[rack] == ValuesOf(before, rack) + [node.name];
    }
  }

  lemma StepCount(nodes: seq<Node>, node: Node, minRacks: int, before: Racks, after: Racks)
    requires OpenStep(nodes, node, minRacks, before, after)
    ensures |after| >= |before|
    ensures !HasRack(before, node.name) && |before| < minRacks ==> |after| == |before| + 1
  {
    if !HasRack(before, node.name) {
      var rack, z :| IsTargetZone(node, z) && Joins(nodes, node.name, z, minRacks, before, rack, after);
      assert after.Keys == before.Keys + {rack};
    }
  }

  // ----- every run

  /** Between placements no rack is empty, and no node leaves its rack. */
  lemma {:induction false} RunGrows(nodes: seq<Node>, minRacks: int, states: seq<Racks>, n: nat)
    requires IsOpenRun(nodes, minRacks, states) && NoEmptyRack(states[0]) && n < |states|
    ensures NoEmptyRack(states[n]) && Extends(states[0], states[n])
  {
    if n > 0 {
      RunGrows(nodes, minRacks, states, n - 1);
      assert OpenStepAt(nodes, minRacks, states, n - 1);
      StepGrows(nodes, nodes[n - 1], minRacks, states[n - 1], states[n]);
    }
  }

  lemma StepHolds(nodes: seq<Node>, node: Node, minRacks: int, before: Racks, after: Racks, name: string)
    requires OpenStep(nodes, node, minRacks, before, after)
    ensures HasRack(after, name) <==> HasRack(before, name) || name == node.name
  {
    if !HasRack(before, node.name) {
      var rack, z :| IsTargetZone(node, z) && Joins(nodes, node.name, z, minRacks, before, rack, after);
      assert after[rack] == ValuesOf(before, rack) + [node.name];
      if HasRack(before, name) {
        var r :| r in before && name in before[r];
        assert r in after && name in after[r];
      }
      assert rack in after && node.name in after[rack];
    }
  }

  /** Exactly the nodes looked at have joined. */
  lemma {:induction false} RunHolds(nodes: seq<Node>, minRacks: int, states: seq<Racks>, n: nat, name: string)
    requires IsOpenRun(nodes, minRacks, states) && n < |states|
    ensures HasRack(states[n], name) <==> HasRack(states[0], name) || exists i :: 0 <= i < n && nodes[i].name == name
  {
    if n > 0 {
      RunHolds(nodes, minRacks, states, n - 1, name);
      assert OpenStepAt(nodes, minRacks, states, n - 1);
      StepHolds(nodes, nodes[n - 1], minRacks, states[n - 1], states[n], name);
    }
  }

  lemma StepOneRackEach(nodes: seq<Node>, node: Node, minRacks: int, before: Racks, after: Racks)
    requires OneRackEach(before) && OpenStep(nodes, node, minRacks, before, after)
    ensures OneRackEach(after)
  {
    if !HasRack(before, node.name) {
      var rack, z :| IsTargetZone(node, z) && Joins(nodes, node.name, z, minRacks, before, rack, after);
      assert node.name !in ValuesOf(before, rack);
      forall r | r in after ensures NoDuplicates(after[r]) {
        if r != rack { assert NoDuplicates(before[r]); }
      }
      forall a, b, x | a in after && b in after && x in after[a] && x in after[b] ensures a == b {
        assert a in before && x in before[a] ==> HasRack(before, x);
        assert b in before && x in before[b] ==> HasRack(before, x);
      }
    }
  }

  lemma {:induction false} RunOneRackEach(nodes: seq<Node>, minRacks: int, states: seq<Racks>, n: nat)
    requires IsOpenRun(nodes, minRacks, states) && OneRackEach(states[0]) && n < |states|
    ensures OneRackEach(states[n])
  {
    if n > 0 {
      RunOneRackEach(nodes, minRacks, states, n - 1);
      assert OpenStepAt(nodes, minRacks, states, n - 1);
      StepOneRackEach(nodes, nodes[n - 1], minRacks, states[n - 1], states[n]);
    }
  }

  /** How many of the first `n` nodes had no rack when they were looked at. */
  ghost function PlacedCount(nodes: seq<Node>, states: seq<Racks>, n: nat): nat
    requires n < |states| <= |nodes| + 1
  {
    if n == 0 then 0
    else PlacedCount(nodes, states, n - 1) + if HasRack(states[n - 1], nodes[n - 1].name) then 0 else 1
  }

  /** The number of racks grows with every placed node until the minimum is reached. */
  lemma {:induction false} RunRackCount(nodes: seq<Node>, minRacks: int, states: seq<Racks>, n: nat)
    requires IsOpenRun(nodes, minRacks, states) && n < |states|
    ensures var reached := |states[0]| + PlacedCount(nodes, states, n);
            |states[n]| >= if reached < minRacks then reached else minRacks
  {
    if n > 0 {
      RunRackCount(nodes, minRacks, states, n - 1);
      assert OpenStepAt(nodes, minRacks, states, n - 1);
      StepCount(nodes, nodes[n - 1], minRacks, states[n - 1], states[n]);
    }
  }

  lemma {:induction false} AllPlaced(nodes: seq<Node>, minRacks: int, states: seq<Racks>, n: nat)
    requires IsOpenRun(nodes, minRacks, states) && UniqueNames(nodes) && states[0] == map[] && n < |states|
    ensures PlacedCount(nodes, states, n) == n
  {
    if n > 0 {
      AllPlaced(nodes, minRacks, states, n - 1);
      RunHolds(nodes, minRacks, states, n - 1, nodes[n - 1].name);
    }
  }

  lemma ZoneInRackAppend(nodes: seq<Node>, names: seq<string>, name: string, z: string)
    ensures ZoneInRack(nodes, names + [name], z) <==> ZoneInRack(nodes, names, z) || NameHasZone(nodes, name, z)
  {
    var all := names + [name];
    if ZoneInRack(nodes, names, z) {
      var i :| 0 <= i < |names| && NameHasZone(nodes, names[i], z);
      assert all[i] == names[i];
    }
    if NameHasZone(nodes, name, z) {
      assert all[|names|] == name;
    }
  }

  /** The zones in a rack after a node of zone `z` joined. */
  lemma JoinZones(nodes: seq<Node>, node: Node, z: string, racks: Racks, rack: string, y: string)
    requires FindNode(nodes, node.name) == Some(node) && OneZone(node) && IsTargetZone(node, z)
    ensures ZoneInRack(nodes, Join(racks, rack, node.name)[rack], y) <==>
              (rack in racks && ZoneInRack(nodes, racks[rack], y)) || (z != "" && y == z)
  {
    ZoneInRackAppend(nodes, ValuesOf(racks, rack), node.name, y);
    assert NameHasZone(nodes, node.name, y) <==> HasZone(node, y);
  }

  lemma StepZonesApart(nodes: seq<Node>, node: Node, minRacks: int, before: Racks, after: Racks)
    requires OpenStep(nodes, node, minRacks, before, after) && ZonesApart(nodes, before)
    requires FindNode(nodes, node.name) == Some(node) && OneZone(node)
    ensures ZonesApart(nodes, after)
  {
    if !HasRack(before, node.name) {
      var rack, z :| IsTargetZone(node, z) && Joins(nodes, node.name, z, minRacks, before, rack, after);
      forall r, x, y | r in after && ZoneInRack(nodes, after[r], x) && ZoneInRack(nodes, after[r], y)
        ensures x == y
      {
        if r == rack {
          JoinZones(nodes, node, z, before, rack, x);
          JoinZones(nodes, node, z, before, rack, y);
        }
      }
    }
  }

  /** Racks that kept the zones apart still do after any number of placements, racks
      invented on the way included. */
  lemma {:induction false} RunZonesApart(nodes: seq<Node>, minRacks: int, states: seq<Racks>, n: nat)
    requires IsOpenRun(nodes, minRacks, states) && n < |states|
    requires UniqueNames(nodes) && AllOneZone(nodes)
    requires ZonesApart(nodes, states[0])
    ensures ZonesApart(nodes, states[n])
  {
    if n > 0 {
      RunZonesApart(nodes, minRacks, states, n - 1);
      FindNodeUnique(nodes, n - 1);
      assert OpenStepAt(nodes, minRacks, states, n - 1);
      StepZonesApart(nodes, nodes[n - 1], minRacks, states[n - 1], states[n]);
    }
  }

  /** Zones apart and level, and either enough racks or only one-node racks: the state
      in which smallest-first placement keeps racks level. */
  ghost predicate Level(nodes: seq<Node>, minRacks: int, racks: Racks)
  {
    ZonesApart(nodes, racks) && Balanced(nodes, racks) && (|racks| >= minRacks || AllSingle(racks))
  }

  lemma StepBalanced(nodes: seq<Node>, node: Node, z: string, minRacks: int, before: Racks, rack: string)
    requires Open(nodes, z, minRacks, before, rack) && Level(nodes, minRacks, before)
    requires FindNode(nodes, node.name) == Some(node) && OneZone(node) && IsTargetZone(node, z)
    ensures Balanced(nodes, Join(before, rack, node.name))
  {
    var after := Join(before, rack, node.name);
    forall a, b, y | a in after && b in after && ZoneInRack(nodes, after[a], y) && ZoneInRack(nodes, after[b], y)
      ensures |after[a]| <= |after[b]| + 1
    {
      JoinZones(nodes, node, z, before, rack, y);
    }
  }

  lemma StepLevel(nodes: seq<Node>, node: Node, minRacks: int, before: Racks, after: Racks)
    requires OpenStep(nodes, node, minRacks, before, after) && Level(nodes, minRacks, before)
    requires FindNode(nodes, node.name) == Some(node) && OneZone(node)
    ensures Level(nodes, minRacks, after)
  {
    StepZonesApart(nodes, node, minRacks, before, after);
    if !HasRack(before, node.name) {
      var rack, z :| IsTargetZone(node, z) && Joins(nodes, node.name, z, minRacks, before, rack, after);
      StepBalanced(nodes, node, z, minRacks, before, rack);
      StepCount(nodes, node, minRacks, before, after);
    }
  }

  /** Racks stay level from any level start. Nodes without a zone do not disturb it. */
  lemma {:induction false} RunLevel(nodes: seq<Node>, minRacks: int, states: seq<Racks>, n: nat)
    requires IsOpenRun(nodes, minRacks, states) && n < |states|
    requires UniqueNames(nodes) && AllOneZone(nodes)
    requires Level(nodes, minRacks, states[0])
    ensures Level(nodes, minRacks, states[n])
  {
    if n > 0 {
      RunLevel(nodes, minRacks, states, n - 1);
      FindNodeUnique(nodes, n - 1);
      assert OpenStepAt(nodes, minRacks, states, n - 1);
      StepLevel(nodes, nodes[n - 1], minRacks, states[n - 1], states[n]);
    }
  }

  /** From no racks at all, after any number of nodes: racks of one zone are level, zones
      are apart, every node looked at is in exactly one rack, and the number of racks is
      the number of nodes up to the minimum. */
  lemma FreshClusterRacks(nodes: seq<Node>, minRacks: int, states: seq<Racks>, n: nat)
    requires minRacks >= 1 && IsRun(nodes, minRacks, states) && states[0] == map[] && n < |states|
    requires UniqueNames(nodes) && AllOneZone(nodes)
    ensures var racks := states[n];
            && Balanced(nodes, racks) && ZonesApart(nodes, racks)
            && NoEmptyRack(racks) && OneRackEach(racks)
            && (forall i :: 0 <= i < n ==> HasRack(racks, nodes[i].name))
            && |racks| >= if n < minRacks then n else minRacks
  {
    RunIsOpen(nodes, minRacks, states);
    RunLevel(nodes, minRacks, states, n);
    RunGrows(nodes, minRacks, states, n);
    RunOneRackEach(nodes, minRacks, states, n);
    forall i | 0 <= i < n ensures HasRack(states[n], nodes[i].name) {
      RunHolds(nodes, minRacks, states, n, nodes[i].name);
    }
    AllPlaced(nodes, minRacks, states, n);
    RunRackCount(nodes, minRacks, states, n);
  }

  // ----- when no new rack is needed

  ghost predicate ZoneHeld(nodes: seq<Node>, racks: Racks, z: string)
  {
    exists rack :: rack in racks && ZoneInRack(nodes, racks[rack], z)
  }

  /** There are enough racks, and the zone of the node, if it has one, already has a rack. */
  ghost predicate Fits(nodes: seq<Node>, node: Node, minRacks: int, racks: Racks)
  {
    |racks| >= minRacks && forall z :: HasZone(node, z) ==> ZoneHeld(nodes, racks, z)
  }

  lemma JoinHolds(nodes: seq<Node>, node: Node, z: string, racks: Racks, rack: string, y: string)
    requires FindNode(nodes, node.name) == Some(node) && OneZone(node) && IsTargetZone(node, z)
    requires rack in racks && (z == "" || ZoneInRack(nodes, racks[rack], z))
    ensures ZoneHeld(nodes, Join(racks, rack, node.name), y) <==> ZoneHeld(nodes, racks, y)
  {
    var after := Join(racks, rack, node.name);
    JoinZones(nodes, node, z, racks, rack, y);
    if r :| r in racks && ZoneInRack(nodes, racks[r], y) {
      assert r in after && ZoneInRack(nodes, after[r], y);
    }
    if r :| r in after && ZoneInRack(nodes, after[r], y) {
      assert r in racks && ZoneInRack(nodes, racks[r], y);
    }
  }

  /** A placement opens a new rack exactly when the node does not fit into the old ones. */
  lemma JoinOpensRackIff(nodes: seq<Node>, node: Node, z: string, minRacks: int, before: Racks, rack: string)
    requires Open(nodes, z, minRacks, before, rack) && IsTargetZone(node, z) && OneZone(node)
    ensures rack in before <==> Fits(nodes, node, minRacks, before)
  {
    if rack in before && z != "" {
      assert ZoneHeld(nodes, before, z);
    }
  }

  lemma JoinKeepsZonesHeld(nodes: seq<Node>, node: Node, z: string, minRacks: int, before: Racks, rack: string)
    requires Open(nodes, z, minRacks, before, rack) && rack in before
    requires FindNode(nodes, node.name) == Some(node) && OneZone(node) && IsTargetZone(node, z)
    ensures SameZonesHeld(nodes, Join(before, rack, node.name), before)
  {
    forall y { JoinHolds(nodes, node, z, before, rack, y); }
  }

  lemma JoinStepOpensRackIff(nodes: seq<Node>, node: Node, z: string, minRacks: int, before: Racks, rack: string)
    requires Open(nodes, z, minRacks, before, rack)
    requires FindNode(nodes, node.name) == Some(node) && OneZone(node) && IsTargetZone(node, z)
    ensures var after := Join(before, rack, node.name);
            && before.Keys <= after.Keys
            && (after.Keys == before.Keys <==> Fits(nodes, node, minRacks, before))
            && (after.Keys == before.Keys ==> SameZonesHeld(nodes, after, before))
  {
    var after := Join(before, rack, node.name);
    assert after.Keys == before.Keys + {rack};
    JoinOpensRackIff(nodes, node, z, minRacks, before, rack);
    if rack in before { JoinKeepsZonesHeld(nodes, node, z, minRacks, before, rack); }
  }

  lemma StepOpensRackIff(nodes: seq<Node>, node: Node, minRacks: int, before: Racks, after: Racks)
    requires OpenStep(nodes, node, minRacks, before, after)
    requires FindNode(nodes, node.name) == Some(node) && OneZone(node)
    ensures before.Keys <= after.Keys
    ensures after.Keys == before.Keys <==> HasRack(before, node.name) || Fits(nodes, node, minRacks, before)
    ensures after.Keys == before.Keys ==> SameZonesHeld(nodes, after, before)
  {
    if !HasRack(before, node.name) {
      var rack, z :| IsTargetZone(node, z) && Joins(nodes, node.name, z, minRacks, before, rack, after);
      JoinStepOpensRackIff(nodes, node, z, minRacks, before, rack);
    }
  }

  lemma SameKeysFit(nodes: seq<Node>, node: Node, minRacks: int, a: Racks, b: Racks)
    requires a.Keys == b.Keys && SameZonesHeld(nodes, a, b)
    ensures Fits(nodes, node, minRacks, a) <==> Fits(nodes, node, minRacks, b)
  {
    assert |a| == |a.Keys| && |b| == |b.Keys|;
  }

  /** Of the first `n` nodes, those without a rack fit into the given ones. */
  ghost predicate AllFit(nodes: seq<Node>, minRacks: int, racks: Racks, n: nat)
    requires n <= |nodes|
  {
    forall i :: 0 <= i < n && !HasRack(racks, nodes[i].name) ==> Fits(nodes, nodes[i], minRacks, racks)
  }

  lemma AllFitNext(nodes: seq<Node>, minRacks: int, racks: Racks, n: nat)
    requires n < |nodes|
    ensures AllFit(nodes, minRacks, racks, n + 1) <==>
            AllFit(nodes, minRacks, racks, n) &&
                (HasRack(racks, nodes[n].name) || Fits(nodes, nodes[n], minRacks, racks))
  {
  }

  ghost predicate SameZonesHeld(nodes: seq<Node>, a: Racks, b: Racks)
  {
    forall z :: ZoneHeld(nodes, a, z) <==> ZoneHeld(nodes, b, z)
  }

  /** From the first `n` nodes to the first `n + 1`: `start` are the racks of the beginning,
      `before` and `after` those around the turn of node `n`. */
  lemma FitOnward(nodes: seq<Node>, minRacks: int, start: Racks, before: Racks, after: Racks, n: nat)
    requires n < |nodes| && start.Keys <= before.Keys <= after.Keys
    requires before.Keys == start.Keys <==> AllFit(nodes, minRacks, start, n)
    requires before.Keys == start.Keys ==> SameZonesHeld(nodes, before, start)
    requires HasRack(before, nodes[n].name) <==> HasRack(start, nodes[n].name)
    requires after.Keys == before.Keys <==> HasRack(before, nodes[n].name) || Fits(nodes, nodes[n], minRacks, before)
    ensures after.Keys == start.Keys <==> AllFit(nodes, minRacks, start, n + 1)
  {
    AllFitNext(nodes, minRacks, start, n);
    if before.Keys == start.Keys {
      SameKeysFit(nodes, nodes[n], minRacks, before, start);
    }
  }

  lemma TurnOpensRackIff(nodes: seq<Node>, minRacks: int, states: seq<Racks>, n: nat)
    requires IsOpenRun(nodes, minRacks, states) && n + 1 < |states| && UniqueNames(nodes) && OneZone(nodes[n])
    ensures states[n].Keys <= states[n + 1].Keys
    ensures states[n + 1].Keys == states[n].Keys <==>
            HasRack(states[n], nodes[n].name) || Fits(nodes, nodes[n], minRacks, states[n])
    ensures states[n + 1].Keys == states[n].Keys ==> SameZonesHeld(nodes, states[n + 1], states[n])
  {
    FindNodeUnique(nodes, n);
    assert OpenStepAt(nodes, minRacks, states, n);
    StepOpensRackIff(nodes, nodes[n], minRacks, states[n], states[n + 1]);
  }

  lemma RackedAtItsTurnIff(nodes: seq<Node>, minRacks: int, states: seq<Racks>, n: nat)
    requires IsOpenRun(nodes, minRacks, states) && n + 1 < |states| && UniqueNames(nodes)
    ensures HasRack(states[n], nodes[n].name) <==> HasRack(states[0], nodes[n].name)
  {
    RunHolds(nodes, minRacks, states, n, nodes[n].name);
  }

  /** A run gets by with the racks it started with exactly when every node without a rack
      fitted into them at the start. */
  lemma {:induction false} RunOpensNoRackIff(nodes: seq<Node>, minRacks: int, states: seq<Racks>, n: nat)
    requires IsOpenRun(nodes, minRacks, states) && n < |states|
    requires UniqueNames(nodes) && AllOneZone(nodes)
    ensures states[0].Keys <= states[n].Keys
    ensures states[n].Keys == states[0].Keys <==> AllFit(nodes, minRacks, states[0], n)
    ensures states[n].Keys == states[0].Keys ==> SameZonesHeld(nodes, states[n], states[0])
  {
    if n > 0 {
      RunOpensNoRackIff(nodes, minRacks, states, n - 1);
      TurnOpensRackIff(nodes, minRacks, states, n - 1);
      RackedAtItsTurnIff(nodes, minRacks, states, n - 1);
      FitOnward(nodes, minRacks, states[0], states[n - 1], states[n], n - 1);
    }
  }
}
