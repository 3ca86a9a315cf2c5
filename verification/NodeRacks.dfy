/** Reading the topology labels off the nodes, and `ensureNodeRacks`: giving every node
    that has no rack a rack and writing it on the stored node. */
module NodeRacks {
  import opened Collections
  import opened Text
  import opened Nodes
  import opened NodeTopologyMaps
  import opened RackPlacement
  import opened RackProperties

  // ----- the API server's nodes

  /** Node names to their labels. */
  type Stored = map<string, map<string, string>>

  /** The list is a current reading of the stored nodes, each once, in any order. */
  ghost predicate IsSnapshot(stored: Stored, nodes: seq<Node>)
  {
    && UniqueNames(nodes)
    && (forall n :: n in nodes ==> n.name in stored && stored[n.name] == n.labels)
    && (forall name :: name in stored ==> Node(name, stored[name]) in nodes)
  }

  /** Every call may fail; `faulty` records that one did. */
  class NodeApi {
    var stored: Stored
    ghost var faulty: bool

    constructor (stored: Stored)
      ensures this.stored == stored && !faulty
    {
      this.stored, faulty := stored, false;
    }

    method List() returns (ok: bool, nodes: seq<Node>)
      modifies this`faulty
      ensures ok ==> IsSnapshot(stored, nodes)
      ensures faulty == (old(faulty) || !ok)
    {
      ok, nodes := *, [];
      var todo := stored.Keys;
      while todo != {}
        invariant todo <= stored.Keys && UniqueNames(nodes)
        invariant forall n :: n in nodes ==> n.name in stored.Keys - todo && stored[n.name] == n.labels
        invariant forall name :: name in stored.Keys - todo ==> Node(name, stored[name]) in nodes
      {
        var name :| name in todo;
        todo := todo - {name};
        nodes := nodes + [Node(name, stored[name])];
      }
      faulty := faulty || !ok;
    }

    /** A patch of one label; it may fail and then changes nothing. */
    method Patch(name: string, key: string, value: string) returns (ok: bool)
      requires name in stored
      modifies this
      ensures stored == if ok then old(stored)[name := old(stored)[name][key := value]] else old(stored)
      ensures faulty == (old(faulty) || !ok)
    {
      ok := *;
      if ok {
        stored := stored[name := stored[name][key := value]];
      } else {
        faulty := true;
      }
    }
  }

  // ----- reading the labels

  /** The map lists, under every topology label, exactly the values the nodes have for it. */
  ghost predicate ListsTopology(labels: map<string, seq<string>>, nodes: seq<Node>)
  {
    && Tidy(labels)
    && (forall lbl, v :: v in ValuesOf(labels, lbl) <==> IsTopologyLabel(lbl) && SomeNodeHas(nodes, lbl, v))
  }

  ghost predicate SomeNodeHas(nodes: seq<Node>, lbl: string, v: string)
  {
    exists n :: n in nodes && lbl in n.labels && n.labels[lbl] == v
  }

  /** The racks list exactly the nodes that carry the rack in a rack label. */
  ghost predicate ListsRacks(racks: Racks, nodes: seq<Node>)
  {
    && Tidy(racks)
    && (forall rack, name :: name in ValuesOf(racks, rack) <==> SomeNodeInRack(nodes, rack, name))
  }

  ghost predicate SomeNodeInRack(nodes: seq<Node>, rack: string, name: string)
  {
    exists n :: n in nodes && n.name == name && InRack(n, rack)
  }

  /** Every value is listed once and no key stands for nothing. */
  ghost predicate Tidy(labels: map<string, seq<string>>)
  {
    DuplicateFree(labels) && forall key :: key in labels ==> labels[key] != []
  }

  /** `if !m.Contains(key, value) { m.Add(key, value) }`. */
  method AddOnce(m: NodeTopologyMap, key: string, value: string)
    requires Tidy(m.Labels)
    modifies m
    ensures Tidy(m.Labels)
    ensures forall k, v :: v in ValuesOf(m.Labels, k) <==> v in ValuesOf(old(m.Labels), k) || (k == key && v == value)
    ensures forall k :: k != key ==> ValuesOf(m.Labels, k) == ValuesOf(old(m.Labels), k)
    ensures ValuesOf(old(m.Labels), key) <= ValuesOf(m.Labels, key)
  {
    var listed := m.Contains(key, value);
    if !listed {
      m.Add(key, value);
    }
  }

  /** The body of the loop over the nodes. */
  method ReadNode(node: Node, topologyMap: NodeTopologyMap, nodeRacks: NodeTopologyMap)
    requires topologyMap != nodeRacks && Tidy(topologyMap.Labels) && Tidy(nodeRacks.Labels)
    modifies topologyMap, nodeRacks
    ensures Tidy(topologyMap.Labels) && Tidy(nodeRacks.Labels)
    ensures forall lbl, v :: v in ValuesOf(topologyMap.Labels, lbl) <==>
              v in ValuesOf(old(topologyMap.Labels), lbl) ||
              (IsTopologyLabel(lbl) && lbl in node.labels && node.labels[lbl] == v)
    ensures forall rack, name :: name in ValuesOf(nodeRacks.Labels, rack) <==>
              name in ValuesOf(old(nodeRacks.Labels), rack) || (name == node.name && InRack(node, rack))
  {
    var todo := node.labels.Keys;
    while todo != {}
      invariant todo <= node.labels.Keys && Tidy(topologyMap.Labels) && Tidy(nodeRacks.Labels)
      invariant forall lbl, v :: v in ValuesOf(topologyMap.Labels, lbl) <==>
                  v in ValuesOf(old(topologyMap.Labels), lbl) ||
                  (IsTopologyLabel(lbl) && lbl in node.labels.Keys - todo && node.labels[lbl] == v)
      invariant forall rack, name :: name in ValuesOf(nodeRacks.Labels, rack) <==>
                  name in ValuesOf(old(nodeRacks.Labels), rack) ||
                  (name == node.name &&
                   exists lbl :: lbl in node.labels.Keys - todo && IsRackLabel(lbl) && node.labels[lbl] == rack)
    {
      var lbl :| lbl in todo;
      todo := todo - {lbl};
      if IsTopologyLabel(lbl) {
        AddOnce(topologyMap, lbl, node.labels[lbl]);
      }
      if IsRackLabel(lbl) {
        AddOnce(nodeRacks, node.labels[lbl], node.name);
      }
    }
  }

  method ReadLabels(nodes: seq<Node>, topologyMap: NodeTopologyMap, nodeRacks: NodeTopologyMap)
    requires topologyMap != nodeRacks && topologyMap.Labels == map[] && nodeRacks.Labels == map[]
    modifies topologyMap, nodeRacks
    ensures ListsTopology(topologyMap.Labels, nodes)
    ensures ListsRacks(nodeRacks.Labels, nodes)
  {
    for i := 0 to |nodes|
      invariant ListsTopology(topologyMap.Labels, nodes[..i])
      invariant ListsRacks(nodeRacks.Labels, nodes[..i])
    {
      ReadNode(nodes[i], topologyMap, nodeRacks);
      assert nodes[..i + 1] == nodes[..i] + [nodes[i]];
    }
    assert nodes[..|nodes|] == nodes;
  }

  // ----- giving every node a rack

  /** The racks list exactly the stored rack assignments. */
  ghost predicate Mirrors(racks: Racks, stored: Stored)
  {
    forall rack, name :: name in ValuesOf(racks, rack) <==> StoredInRack(stored, name, rack)
  }

  ghost predicate StoredInRack(stored: Stored, name: string, rack: string)
  {
    name in stored && InRack(Node(name, stored[name]), rack)
  }

  /** The racks know at least every stored rack assignment. */
  ghost predicate Covers(racks: Racks, stored: Stored)
  {
    forall rack, name :: StoredInRack(stored, name, rack) ==> name in ValuesOf(racks, rack)
  }

  /** The rack key of the topology map lists exactly the stored values of the rack label. */
  ghost predicate ListsRackKey(labels: map<string, seq<string>>, stored: Stored)
  {
    forall v :: v in ValuesOf(labels, RACK_TOPOLOGY_KEY) <==> SomeStoredRackKey(stored, v)
  }

  ghost predicate SomeStoredRackKey(stored: Stored, v: string)
  {
    exists name :: name in stored && RACK_TOPOLOGY_KEY in stored[name] && stored[name][RACK_TOPOLOGY_KEY] == v
  }

  /** The only change: some nodes that had no rack got a rack label. */
  ghost predicate Patched(before: Stored, after: Stored)
  {
    && after.Keys == before.Keys
    && forall name :: name in before ==> after[name] == before[name] || GotRack(name, before[name], after[name])
  }

  function Labelled(labels: map<string, string>, rack: string): map<string, string>
  {
    labels[RACK_TOPOLOGY_KEY := rack]
  }

  ghost predicate GotRack(name: string, before: map<string, string>, after: map<string, string>)
  {
    !Racked(Node(name, before)) && exists rack :: after == Labelled(before, rack)
  }

  ghost predicate AllRacked(stored: Stored)
  {
    forall name :: name in stored ==> Racked(Node(name, stored[name]))
  }

  lemma PlaceKeepsMembers(nodes: seq<Node>, z: string, minRacks: int, racks: Racks, rack: string)
    requires minRacks >= 1
    ensures ValuesOf(Place(nodes, z, minRacks, racks).0, rack) == ValuesOf(racks, rack)
  {
    var widened := Widen(racks, minRacks);
    assert ValuesOf(widened, rack) == ValuesOf(racks, rack);
    var racks' := Candidates(nodes, widened, z).0;
    assert ValuesOf(racks', rack) == ValuesOf(widened, rack);
  }

  /** Placing and labelling a node that had no rack keeps racks and labels in step. */
  lemma PlacedMirrors(before: Racks, after: Racks, stored: Stored, name: string, rack: string)
    requires Mirrors(before, stored) && name in stored && !Racked(Node(name, stored[name]))
    requires forall r :: ValuesOf(after, r) == ValuesOf(before, r) + if r == rack then [name] else []
    ensures Covers(after, stored)
    ensures Mirrors(after, stored[name := stored[name][RACK_TOPOLOGY_KEY := rack]])
  {
    var patched := stored[name := stored[name][RACK_TOPOLOGY_KEY := rack]];
    RackPatchKeepsZones(Node(name, stored[name]), rack);
    forall r, n ensures n in ValuesOf(after, r) <==> StoredInRack(patched, n, r) {
      assert n in ValuesOf(before, r) <==> StoredInRack(stored, n, r);
      assert StoredInRack(stored, name, r) ==> Racked(Node(name, stored[name]));
    }
  }

  lemma PatchListsRackKey(labels: map<string, seq<string>>, after: map<string, seq<string>>, stored: Stored,
                          name: string, rack: string)
    requires ListsRackKey(labels, stored) && name in stored && !Racked(Node(name, stored[name]))
    requires forall v :: v in ValuesOf(after, RACK_TOPOLOGY_KEY) <==>
               v in ValuesOf(labels, RACK_TOPOLOGY_KEY) || v == rack
    ensures ListsRackKey(after, stored[name := stored[name][RACK_TOPOLOGY_KEY := rack]])
  {
    var patched := stored[name := stored[name][RACK_TOPOLOGY_KEY := rack]];
    RackKeyLabels();
    assert RACK_TOPOLOGY_KEY !in Node(name, stored[name]).labels;
    forall v ensures v in ValuesOf(after, RACK_TOPOLOGY_KEY) <==> SomeStoredRackKey(patched, v) {
      if SomeStoredRackKey(stored, v) {
        var n :| n in stored && RACK_TOPOLOGY_KEY in stored[n] && stored[n][RACK_TOPOLOGY_KEY] == v;
        assert patched[n][RACK_TOPOLOGY_KEY] == v;
      }
      assert patched[name][RACK_TOPOLOGY_KEY] == rack;
    }
  }

  lemma RackedIffListed(racks: Racks, stored: Stored, name: string)
    requires Mirrors(racks, stored) && name in stored
    ensures HasRack(racks, name) <==> Racked(Node(name, stored[name]))
  {
    var node := Node(name, stored[name]);
    if HasRack(racks, name) {
      var rack :| rack in racks && name in racks[rack];
      assert name in ValuesOf(racks, rack);
      assert StoredInRack(stored, name, rack);
    }
    if Racked(node) {
      var lbl :| lbl in node.labels && IsRackLabel(lbl);
      assert StoredInRack(stored, name, node.labels[lbl]);
      assert name in ValuesOf(racks, node.labels[lbl]);
    }
  }

  lemma LabelledIsRacked(name: string, labels: map<string, string>, rack: string)
    ensures Racked(Node(name, Labelled(labels, rack)))
  {
    RackKeyLabels();
    assert RACK_TOPOLOGY_KEY in Node(name, Labelled(labels, rack)).labels;
  }

  lemma PatchKeeps(before: Stored, stored: Stored, name: string, rack: string)
    requires Patched(before, stored) && name in stored && !Racked(Node(name, stored[name]))
    ensures Patched(before, stored[name := Labelled(stored[name], rack)])
  {
    var patched := stored[name := Labelled(stored[name], rack)];
    forall n | n in before ensures patched[n] == before[n] || GotRack(n, before[n], patched[n]) {
      if n == name {
        forall r { LabelledIsRacked(name, before[name], r); }
        assert stored[name] == before[name];
        assert patched[name] == Labelled(before[name], rack);
      }
    }
  }

  /** The nodes before `i` have a rack by now, the others still have the labels they were
      listed with. */
  ghost predicate DoneUpTo(nodes: seq<Node>, stored: Stored, i: nat)
  {
    && (forall j :: 0 <= j < |nodes| ==> nodes[j].name in stored)
    && (forall j :: i <= j < |nodes| ==> stored[nodes[j].name] == nodes[j].labels)
    && (forall j :: 0 <= j < i && j < |nodes| ==> Racked(Node(nodes[j].name, stored[nodes[j].name])))
  }

  lemma DoneNext(nodes: seq<Node>, stored: Stored, i: nat, labels: map<string, string>)
    requires UniqueNames(nodes) && i < |nodes| && DoneUpTo(nodes, stored, i)
    requires Racked(Node(nodes[i].name, labels))
    ensures DoneUpTo(nodes, stored[nodes[i].name := labels], i + 1)
  {
  }

  lemma RunAppend(nodes: seq<Node>, minRacks: int, states: seq<Racks>, next: Racks)
    requires minRacks >= 1 && IsRun(nodes, minRacks, states) && |states| <= |nodes|
    requires Step(nodes, nodes[|states| - 1], minRacks, states[|states| - 1], next)
    ensures IsRun(nodes, minRacks, states + [next])
  {
    var longer := states + [next];
    forall i | 0 <= i < |longer| - 1 ensures StepAt(nodes, minRacks, longer, i) {
      assert longer[i] == states[i];
      if i < |states| - 1 {
        assert StepAt(nodes, minRacks, states, i) && longer[i + 1] == states[i + 1];
      }
    }
  }

  /** How handing out racks ends. A node without labels is read with a nil map of labels,
      and writing the rack label into that map ends in a panic. */
  datatype Ending = Done | Failed | Panicked

  ghost predicate AllLabelled(nodes: seq<Node>)
  {
    forall n :: n in nodes ==> n.labels != map[]
  }

  /** Placing one node without a rack and labelling it. */
  method PlaceAndLabel(api: NodeApi, nodes: seq<Node>, node: Node, minRacks: int, nodeRacks: NodeTopologyMap,
                       topologyMap: NodeTopologyMap)
    returns (end: Ending)
    requires nodeRacks != topologyMap && minRacks >= 1
    requires node.name in api.stored && api.stored[node.name] == node.labels
    requires !HasRack(nodeRacks.Labels, node.name) && Mirrors(nodeRacks.Labels, api.stored)
    requires Tidy(topologyMap.Labels) && ListsRackKey(topologyMap.Labels, api.stored)
    modifies api, nodeRacks, topologyMap
    ensures Step(nodes, node, minRacks, old(nodeRacks.Labels), nodeRacks.Labels)
    ensures api.faulty == (old(api.faulty) || end == Failed)
    ensures end == Panicked <==> node.labels == map[]
    ensures end == Done ==> exists rack :: api.stored == old(api.stored)[node.name := Labelled(node.labels, rack)]
    ensures end != Done ==> api.stored == old(api.stored)
    ensures Covers(nodeRacks.Labels, api.stored) && Tidy(topologyMap.Labels)
    ensures end == Done ==> Mirrors(nodeRacks.Labels, api.stored) && ListsRackKey(topologyMap.Labels, api.stored)
    ensures GrewAtRackKey(old(topologyMap.Labels), topologyMap.Labels)
  {
    ghost var before := nodeRacks.Labels;
    RackedIffListed(before, api.stored, node.name);
    var rack, targetAZ := DeterminePlacementRack(nodes, node, minRacks, nodeRacks);
    nodeRacks.Add(rack, node.name);
    ghost var after := nodeRacks.Labels;
    assert after == AddToRack(nodes, node.name, targetAZ, minRacks, before);
    forall r ensures ValuesOf(after, r) == ValuesOf(before, r) + if r == rack then [node.name] else [] {
      PlaceKeepsMembers(nodes, targetAZ, minRacks, before, r);
    }
    PlacedMirrors(before, after, api.stored, node.name, rack);
    ghost var labels := topologyMap.Labels;
    AddOnce(topologyMap, RACK_TOPOLOGY_KEY, rack);
    PatchListsRackKey(labels, topologyMap.Labels, api.stored, node.name, rack);
    if node.labels == map[] { return Panicked; }
    var ok := api.Patch(node.name, RACK_TOPOLOGY_KEY, rack);
    end := if ok then Done else Failed;
    assert ok ==> api.stored == old(api.stored)[node.name := Labelled(node.labels, rack)];
  }

  /** The search for the node in all racks. */
  method ListedAnywhere(nodeRacks: NodeTopologyMap, name: string) returns (found: bool)
    ensures found == HasRack(nodeRacks.Labels, name)
  {
    var todo := nodeRacks.Labels.Keys;
    while todo != {}
      invariant todo <= nodeRacks.Labels.Keys
      invariant forall rack :: rack in nodeRacks.Labels.Keys - todo ==> name !in nodeRacks.Labels[rack]
    {
      var rack :| rack in todo;
      todo := todo - {rack};
      var listed := nodeRacks.Contains(rack, name);
      if listed { return true; }
    }
    return false;
  }

  /** Only the list under the rack key has grown. */
  ghost predicate GrewAtRackKey(before: map<string, seq<string>>, after: map<string, seq<string>>)
  {
    && ValuesOf(before, RACK_TOPOLOGY_KEY) <= ValuesOf(after, RACK_TOPOLOGY_KEY)
    && forall lbl :: lbl != RACK_TOPOLOGY_KEY ==> ValuesOf(after, lbl) == ValuesOf(before, lbl)
  }

  /** Where the loop stands before node `i`, having started from the labels `before`. */
  ghost predicate SoFar(nodes: seq<Node>, before: Stored, stored: Stored, racks: Racks,
                        labels: map<string, seq<string>>, i: nat)
  {
    && Patched(before, stored) && DoneUpTo(nodes, stored, i)
    && (forall j :: 0 <= j < i && j < |nodes| ==> nodes[j].labels != map[])
    && Mirrors(racks, stored) && Tidy(labels) && ListsRackKey(labels, stored)
  }

  /** The body of the loop over the nodes. */
  method EnsureNodeRack(api: NodeApi, nodes: seq<Node>, i: nat, minRacks: int, nodeRacks: NodeTopologyMap,
                        topologyMap: NodeTopologyMap, ghost before: Stored) returns (end: Ending)
    requires nodeRacks != topologyMap && minRacks >= 1 && i < |nodes| && UniqueNames(nodes)
    requires SoFar(nodes, before, api.stored, nodeRacks.Labels, topologyMap.Labels, i)
    modifies api, nodeRacks, topologyMap
    ensures Step(nodes, nodes[i], minRacks, old(nodeRacks.Labels), nodeRacks.Labels)
    ensures api.faulty == (old(api.faulty) || end == Failed)
    ensures end == Panicked <==> nodes[i].labels == map[]
    ensures end == Done ==> SoFar(nodes, before, api.stored, nodeRacks.Labels, topologyMap.Labels, i + 1)
    ensures end != Done ==> api.stored == old(api.stored)
    ensures Patched(before, api.stored) && Covers(nodeRacks.Labels, api.stored)
    ensures Tidy(topologyMap.Labels) && GrewAtRackKey(old(topologyMap.Labels), topologyMap.Labels)
  {
    var node := nodes[i];
    ghost var stored := api.stored;
    RackedIffListed(nodeRacks.Labels, stored, node.name);
    var hasRack := ListedAnywhere(nodeRacks, node.name);
    if !hasRack {
      end := PlaceAndLabel(api, nodes, node, minRacks, nodeRacks, topologyMap);
      if end == Done {
        ghost var rack :| api.stored == stored[node.name := Labelled(node.labels, rack)];
        PatchKeeps(before, stored, node.name, rack);
        LabelledIsRacked(node.name, node.labels, rack);
        DoneNext(nodes, stored, i, Labelled(node.labels, rack));
      }
    } else {
      end := Done;
      DoneNext(nodes, stored, i, node.labels);
      assert stored[node.name := node.labels] == stored;
    }
  }

  /** A run of `n` turns from the racks `first` to the racks `last`. */
  ghost predicate LeadsTo(nodes: seq<Node>, minRacks: int, states: seq<Racks>, n: nat, first: Racks, last: Racks)
    requires minRacks >= 1
  {
    |states| == n + 1 && IsRun(nodes, minRacks, states) && states[0] == first && states[n] == last
  }

  lemma LeadsOn(nodes: seq<Node>, minRacks: int, states: seq<Racks>, n: nat, first: Racks, next: Racks)
    returns (longer: seq<Racks>)
    requires minRacks >= 1 && n < |nodes| && |states| == n + 1 && LeadsTo(nodes, minRacks, states, n, first, states[n])
    requires Step(nodes, nodes[n], minRacks, states[n], next)
    ensures LeadsTo(nodes, minRacks, longer, n + 1, first, next)
  {
    RunAppend(nodes, minRacks, states, next);
    longer := states + [next];
  }

  /** The loop before node `i` as a whole: the run so far, from the racks `first`, the stored
      labels `before` and the topology map `read`. */
  ghost predicate Looping(nodes: seq<Node>, minRacks: int, i: nat,
                          first: Racks, before: Stored, read: map<string, seq<string>>,
                          states: seq<Racks>, stored: Stored, labels: map<string, seq<string>>)
    requires minRacks >= 1
  {
    && |states| == i + 1 && LeadsTo(nodes, minRacks, states, i, first, states[i])
    && SoFar(nodes, before, stored, states[i], labels, i) && GrewAtRackKey(read, labels)
  }

  /** How the loop ends, however it ends. */
  ghost predicate Ended(nodes: seq<Node>, minRacks: int, end: Ending,
                        first: Racks, before: Stored, read: map<string, seq<string>>,
                        states: seq<Racks>, stored: Stored, labels: map<string, seq<string>>)
    requires minRacks >= 1
  {
    && IsRun(nodes, minRacks, states) && states[0] == first
    && Patched(before, stored) && Covers(states[|states| - 1], stored)
    && Tidy(labels) && GrewAtRackKey(read, labels)
    && (end == Panicked ==> !AllLabelled(nodes))
    && (end == Done ==>
          && AllLabelled(nodes) && |states| == |nodes| + 1
          && Mirrors(states[|nodes|], stored) && AllRacked(stored) && ListsRackKey(labels, stored))
  }

  lemma LoopedIsEnded(nodes: seq<Node>, minRacks: int, first: Racks, before: Stored, read: map<string, seq<string>>,
                      states: seq<Racks>, stored: Stored, labels: map<string, seq<string>>)
    requires minRacks >= 1 && IsSnapshot(before, nodes)
    requires Looping(nodes, minRacks, |nodes|, first, before, read, states, stored, labels)
    ensures Ended(nodes, minRacks, Done, first, before, read, states, stored, labels)
  {
    DoneIsAllRacked(nodes, before, stored);
  }

  method EnsureNext(api: NodeApi, nodes: seq<Node>, i: nat, minRacks: int, nodeRacks: NodeTopologyMap,
                    topologyMap: NodeTopologyMap, ghost first: Racks, ghost before: Stored,
                    ghost read: map<string, seq<string>>, ghost states: seq<Racks>)
    returns (end: Ending, ghost longer: seq<Racks>)
    requires nodeRacks != topologyMap && minRacks >= 1 && i < |nodes| && UniqueNames(nodes)
    requires Looping(nodes, minRacks, i, first, before, read, states, api.stored, topologyMap.Labels)
    requires nodeRacks.Labels == states[i]
    modifies api, nodeRacks, topologyMap
    ensures api.faulty == (old(api.faulty) || end == Failed)
    ensures |longer| == i + 2 && nodeRacks.Labels == longer[i + 1]
    ensures end == Done ==>
              Looping(nodes, minRacks, i + 1, first, before, read, longer, api.stored, topologyMap.Labels)
    ensures end != Done ==>
              Ended(nodes, minRacks, end, first, before, read, longer, api.stored, topologyMap.Labels)
  {
    end := EnsureNodeRack(api, nodes, i, minRacks, nodeRacks, topologyMap, before);
    longer := LeadsOn(nodes, minRacks, states, i, first, nodeRacks.Labels);
    assert nodes[i] in nodes;
  }

  /** The loop over the nodes. Without a failed patch it panics exactly when some node has no
      labels. */
  method EnsureNodeRacks(api: NodeApi, nodes: seq<Node>, minRacks: int, nodeRacks: NodeTopologyMap,
                         topologyMap: NodeTopologyMap)
    returns (end: Ending, ghost states: seq<Racks>)
    requires nodeRacks != topologyMap && minRacks >= 1
    requires IsSnapshot(api.stored, nodes) && Mirrors(nodeRacks.Labels, api.stored)
    requires Tidy(topologyMap.Labels) && ListsRackKey(topologyMap.Labels, api.stored)
    modifies api, nodeRacks, topologyMap
    ensures api.faulty == (old(api.faulty) || end == Failed)
    ensures Ended(nodes, minRacks, end, old(nodeRacks.Labels), old(api.stored), old(topologyMap.Labels),
                  states, api.stored, topologyMap.Labels)
    ensures states[|states| - 1] == nodeRacks.Labels
  {
    ghost var before, first, read := api.stored, nodeRacks.Labels, topologyMap.Labels;
    states := [first];
    for i := 0 to |nodes|
      invariant api.faulty == old(api.faulty)
      invariant Looping(nodes, minRacks, i, first, before, read, states, api.stored, topologyMap.Labels)
      invariant nodeRacks.Labels == states[i]
    {
      end, states := EnsureNext(api, nodes, i, minRacks, nodeRacks, topologyMap, first, before, read, states);
      if end != Done { return; }
    }
    end := Done;
    LoopedIsEnded(nodes, minRacks, first, before, read, states, api.stored, topologyMap.Labels);
  }

  lemma DoneIsAllRacked(nodes: seq<Node>, before: Stored, after: Stored)
    requires IsSnapshot(before, nodes) && after.Keys == before.Keys && DoneUpTo(nodes, after, |nodes|)
    ensures AllRacked(after)
  {
    forall name | name in after ensures Racked(Node(name, after[name])) {
      assert name in before;
      var j :| 0 <= j < |nodes| && nodes[j] == Node(name, before[name]);
    }
  }
}
