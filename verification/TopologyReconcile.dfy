/** `reconcileNodeTopologyMap` as a whole: one run from the stored nodes to the labelled
    nodes and the topology in the StorageCluster status, and what repeated runs do. */
module TopologyReconcile {
  import opened Collections
  import opened Text
  import opened Nodes
  import opened NodeTopologyMaps
  import opened RackPlacement
  import opened RackProperties
  import opened NodeRacks
  import opened FailureDomains

  datatype TopologySpec = TopologySpec(
    flexibleScaling: bool, arbiter: bool, singleNode: bool, replicas: seq<int>)

  /** The errors of a run; `Panic` is a write into the nil labels of a node. */
  datatype TopologyError = ListFailed | NotEnoughNodes | PatchFailed | Panic

  /** The topology part of the StorageCluster status as a value. */
  datatype TopologyView = TopologyView(domain: string, key: string, values: seq<string>, labels: Labels)

  class TopologyStatus {
    var NodeTopologies: NodeTopologyMap
    var FailureDomain: string
    var FailureDomainKey: string
    var FailureDomainValues: seq<string>

    constructor ()
      ensures FailureDomain == "" && FailureDomainKey == "" && FailureDomainValues == []
      ensures fresh(NodeTopologies) && NodeTopologies.Labels == map[]
    {
      NodeTopologies := new NodeTopologyMap();
      FailureDomain, FailureDomainKey, FailureDomainValues := "", "", [];
    }

    ghost function View(): TopologyView
      reads this, NodeTopologies
    {
      TopologyView(FailureDomain, FailureDomainKey, FailureDomainValues, NodeTopologies.Labels)
    }
  }

  /** The default and arbiter replica counts, times the replicas per failure domain. */
  function BaseReplicas(spec: TopologySpec): (n: int)
    ensures n >= 1
  {
    if spec.arbiter then 2 * 2 else if spec.singleNode then 1 else 3
  }

  lemma RestIsSnapshot(stored: Stored, nodes: seq<Node>)
    requires IsSnapshot(stored, nodes) && nodes != []
    ensures IsSnapshot(stored - {nodes[0].name}, nodes[1..])
  {
    var rest := stored - {nodes[0].name};
    forall name | name in rest ensures Node(name, rest[name]) in nodes[1..] {
      var i :| 0 <= i < |nodes| && nodes[i] == Node(name, stored[name]);
      assert nodes[1..][i - 1] == nodes[i];
    }
    forall n | n in nodes[1..] ensures n.name in rest && rest[n.name] == n.labels {
      assert n in nodes;
    }
  }

  lemma {:induction false} SnapshotSize(stored: Stored, nodes: seq<Node>)
    requires IsSnapshot(stored, nodes)
    ensures |nodes| == |stored|
  {
    if nodes == [] {
      assert stored.Keys == {};
    } else {
      RestIsSnapshot(stored, nodes);
      SnapshotSize(stored - {nodes[0].name}, nodes[1..]);
      assert nodes[0] in nodes;
      assert stored.Keys == (stored - {nodes[0].name}).Keys + {nodes[0].name};
    }
  }

  /** The minimum number of nodes and of racks that the spec asks for is reached by `n`. */
  ghost predicate Reaches(spec: TopologySpec, n: int)
  {
    n >= BaseReplicas(spec) && forall r :: r in spec.replicas ==> n >= r
  }

  ghost predicate IsMinimum(spec: TopologySpec, n: int)
  {
    Reaches(spec, n) && (n == BaseReplicas(spec) || n in spec.replicas)
  }

  /** Without replica counts in the spec the minimum is four nodes with an arbiter, one on a
      single node, and three otherwise; larger replica counts raise it. */
  method GetMinimumNodes(spec: TopologySpec) returns (maxReplica: int)
    ensures IsMinimum(spec, maxReplica)
    ensures forall r :: r in spec.replicas ==> maxReplica >= r
    ensures maxReplica == (if spec.arbiter then 4 else if spec.singleNode then 1 else 3) ||
            (maxReplica > (if spec.arbiter then 4 else if spec.singleNode then 1 else 3) && maxReplica in spec.replicas)
  {
    maxReplica := BaseReplicas(spec);
    for i := 0 to |spec.replicas|
      invariant maxReplica >= BaseReplicas(spec) && forall j :: 0 <= j < i ==> maxReplica >= spec.replicas[j]
      invariant maxReplica == BaseReplicas(spec) || maxReplica in spec.replicas
    {
      if spec.replicas[i] > maxReplica {
        maxReplica := spec.replicas[i];
      }
    }
  }

  /** What `GetKeyValues` may answer. */
  ghost predicate Answers(labels: Labels, topologyKey: string, key: string, values: seq<string>)
  {
    if exists lbl :: lbl in labels && HasSubstring(lbl, topologyKey)
    then key in labels && HasSubstring(key, topologyKey) && values == labels[key]
    else key == topologyKey && values == []
  }

  /** Some zone label lists three zones, or two with an arbiter. */
  ghost predicate EnoughZones(spec: TopologySpec, labels: Labels)
  {
    exists lbl :: lbl in labels && HasSubstring(lbl, "zone") &&
                  (|labels[lbl]| >= 3 || (|labels[lbl]| >= 2 && spec.arbiter))
  }

  ghost function ChosenDomain(spec: TopologySpec, labels: Labels): string
  {
    if spec.singleNode then "osd"
    else if spec.flexibleScaling then "host"
    else if EnoughZones(spec, labels) then "zone"
    else "rack"
  }

  /** The failure domain is chosen once and kept. On a single node its values are looked
      up under "host" when it is chosen, and under "osd" in every later run. */
  method SetFailureDomain(spec: TopologySpec, status: TopologyStatus)
    modifies status
    ensures status.NodeTopologies == old(status.NodeTopologies)
    ensures status.FailureDomain ==
            if old(status.FailureDomain) != "" then old(status.FailureDomain)
            else ChosenDomain(spec, status.NodeTopologies.Labels)
    ensures Answers(status.NodeTopologies.Labels,
                    if old(status.FailureDomain) == "" && spec.singleNode then "host" else status.FailureDomain,
                    status.FailureDomainKey, status.FailureDomainValues)
  {
    var topologyMap := status.NodeTopologies;
    if status.FailureDomain != "" {
      var key, values := topologyMap.GetKeyValues(status.FailureDomain);
      status.FailureDomainKey, status.FailureDomainValues := key, values;
      return;
    }
    var failureDomain := "rack";
    if spec.singleNode {
      status.FailureDomain := "osd";
      var key, values := topologyMap.GetKeyValues("host");
      status.FailureDomainKey, status.FailureDomainValues := key, values;
      return;
    }
    if spec.flexibleScaling {
      failureDomain := "host";
      status.FailureDomain := failureDomain;
      var key, values := topologyMap.GetKeyValues(status.FailureDomain);
      status.FailureDomainKey, status.FailureDomainValues := key, values;
      return;
    }
    var todo := topologyMap.Labels.Keys;
    while todo != {}
      invariant todo <= topologyMap.Labels.Keys
      invariant failureDomain == "zone" || failureDomain == "rack"
      invariant failureDomain == "zone" <==>
                exists lbl :: lbl in topologyMap.Labels.Keys - todo && HasSubstring(lbl, "zone") &&
                              (|topologyMap.Labels[lbl]| >= 3 || (|topologyMap.Labels[lbl]| >= 2 && spec.arbiter))
    {
      var lbl :| lbl in todo;
      todo := todo - {lbl};
      if HasSubstring(lbl, "zone") {
        var n := |topologyMap.Labels[lbl]|;
        if (n >= 2 && spec.arbiter) || n >= 3 {
          failureDomain := "zone";
        }
      }
    }
    status.FailureDomain := failureDomain;
    var key, values := topologyMap.GetKeyValues(status.FailureDomain);
    status.FailureDomainKey, status.FailureDomainValues := key, values;
  }

  ghost function SortedLabels(labels: Labels): Labels
  {
    map key | key in labels :: SortStrings(labels[key])
  }

  method SortTopologyMapLabelValues(topologyMap: NodeTopologyMap)
    modifies topologyMap
    ensures topologyMap.Labels == SortedLabels(old(topologyMap.Labels))
  {
    ghost var labels := topologyMap.Labels;
    var todo := topologyMap.Labels.Keys;
    while todo != {}
      invariant todo <= labels.Keys && topologyMap.Labels.Keys == labels.Keys
      invariant forall key :: key in labels.Keys ==>
                  topologyMap.Labels[key] == if key in todo then labels[key] else SortStrings(labels[key])
    {
      var key :| key in todo;
      todo := todo - {key};
      topologyMap.Labels := topologyMap.Labels[key := SortStrings(topologyMap.Labels[key])];
    }
  }

  // ----- zones kept apart on the stored labels

  ghost predicate StoredHasZone(stored: Stored, name: string, z: string)
  {
    name in stored && HasZone(Node(name, stored[name]), z)
  }

  /** No two nodes with the same rack label are in different zones. */
  ghost predicate StoredZonesApart(stored: Stored)
  {
    forall a, b, rack, y, z ::
      (StoredInRack(stored, a, rack) && StoredInRack(stored, b, rack) &&
       StoredHasZone(stored, a, y) && StoredHasZone(stored, b, z)) ==> y == z
  }

  ghost predicate StoredOneZone(stored: Stored)
  {
    forall name, y, z :: StoredHasZone(stored, name, y) && StoredHasZone(stored, name, z) ==> y == z
  }

  lemma SnapshotZones(stored: Stored, nodes: seq<Node>, name: string, z: string)
    requires IsSnapshot(stored, nodes)
    ensures NameHasZone(nodes, name, z) <==> StoredHasZone(stored, name, z)
  {
    if name in stored {
      var i :| 0 <= i < |nodes| && nodes[i] == Node(name, stored[name]);
      FindNodeUnique(nodes, i);
    }
  }

  lemma PatchedZones(before: Stored, after: Stored, name: string, z: string)
    requires Patched(before, after)
    ensures StoredHasZone(after, name, z) <==> StoredHasZone(before, name, z)
  {
    if name in before && after[name] != before[name] {
      var rack :| after[name] == Labelled(before[name], rack);
      RackPatchKeepsZones(Node(name, before[name]), rack);
    }
  }

  lemma RacksApartFromStored(stored: Stored, nodes: seq<Node>, racks: Racks)
    requires IsSnapshot(stored, nodes) && Mirrors(racks, stored) && StoredZonesApart(stored)
    ensures ZonesApart(nodes, racks)
  {
    forall rack, y, z | rack in racks && ZoneInRack(nodes, racks[rack], y) && ZoneInRack(nodes, racks[rack], z)
      ensures y == z
    {
      var i :| 0 <= i < |racks[rack]| && NameHasZone(nodes, racks[rack][i], y);
      var j :| 0 <= j < |racks[rack]| && NameHasZone(nodes, racks[rack][j], z);
      SnapshotZones(stored, nodes, racks[rack][i], y);
      SnapshotZones(stored, nodes, racks[rack][j], z);
      assert racks[rack][i] in ValuesOf(racks, rack) && racks[rack][j] in ValuesOf(racks, rack);
      assert StoredInRack(stored, racks[rack][i], rack) && StoredInRack(stored, racks[rack][j], rack);
    }
  }

  lemma StoredApartFromRacks(before: Stored, after: Stored, nodes: seq<Node>, racks: Racks)
    requires IsSnapshot(before, nodes) && Patched(before, after)
    requires Covers(racks, after) && ZonesApart(nodes, racks)
    ensures StoredZonesApart(after)
  {
    forall a, b, rack, y, z |
      StoredInRack(after, a, rack) && StoredInRack(after, b, rack) &&
      StoredHasZone(after, a, y) && StoredHasZone(after, b, z)
      ensures y == z
    {
      PatchedZones(before, after, a, y);
      PatchedZones(before, after, b, z);
      SnapshotZones(before, nodes, a, y);
      SnapshotZones(before, nodes, b, z);
      assert a in ValuesOf(racks, rack) && b in ValuesOf(racks, rack);
      var i :| 0 <= i < |racks[rack]| && racks[rack][i] == a;
      var j :| 0 <= j < |racks[rack]| && racks[rack][j] == b;
      assert NameHasZone(nodes, racks[rack][i], y) && NameHasZone(nodes, racks[rack][j], z);
      assert ZoneInRack(nodes, racks[rack], y) && ZoneInRack(nodes, racks[rack], z);
    }
  }

  lemma SnapshotOneZone(stored: Stored, nodes: seq<Node>)
    requires IsSnapshot(stored, nodes) && StoredOneZone(stored)
    ensures AllOneZone(nodes)
  {
    forall n, y, z | n in nodes && HasZone(n, y) && HasZone(n, z) ensures y == z {
      assert n == Node(n.name, stored[n.name]);
      assert StoredHasZone(stored, n.name, y) && StoredHasZone(stored, n.name, z);
    }
  }

  lemma SnapshotRacks(stored: Stored, nodes: seq<Node>, racks: Racks)
    requires IsSnapshot(stored, nodes) && ListsRacks(racks, nodes)
    ensures Mirrors(racks, stored)
  {
    forall rack, name ensures SomeNodeInRack(nodes, rack, name) <==> StoredInRack(stored, name, rack) {
      if StoredInRack(stored, name, rack) {
        assert Node(name, stored[name]) in nodes;
      }
      if SomeNodeInRack(nodes, rack, name) {
        var n :| n in nodes && n.name == name && InRack(n, rack);
        assert n == Node(name, stored[name]);
      }
    }
  }

  lemma SnapshotRackKey(stored: Stored, nodes: seq<Node>, labels: Labels)
    requires IsSnapshot(stored, nodes) && ListsTopology(labels, nodes)
    ensures ListsRackKey(labels, stored)
  {
    RackKeyLabels();
    forall v ensures SomeNodeHas(nodes, RACK_TOPOLOGY_KEY, v) <==> SomeStoredRackKey(stored, v) {
      if SomeStoredRackKey(stored, v) {
        var name :| name in stored && RACK_TOPOLOGY_KEY in stored[name] && stored[name][RACK_TOPOLOGY_KEY] == v;
        assert Node(name, stored[name]) in nodes;
      }
    }
  }

  lemma SortedListsRackKey(labels: Labels, kept: Labels, stored: Stored)
    requires Tidy(labels) && ListsRackKey(labels, stored)
    requires kept.Keys <= labels.Keys && (RACK_TOPOLOGY_KEY in labels ==> RACK_TOPOLOGY_KEY in kept)
    requires forall key :: key in kept ==> kept[key] == labels[key]
    ensures Tidy(SortedLabels(kept)) && ListsRackKey(SortedLabels(kept), stored)
  {
    var sorted := SortedLabels(kept);
    forall key | key in sorted ensures NoDuplicates(sorted[key]) && sorted[key] != [] {
      SortKeepsNoDuplicates(labels[key]);
      SortKeepsElements(labels[key]);
      assert labels[key][0] in sorted[key];
    }
    forall v ensures v in ValuesOf(sorted, RACK_TOPOLOGY_KEY) <==> SomeStoredRackKey(stored, v) {
      assert v in ValuesOf(labels, RACK_TOPOLOGY_KEY) <==> SomeStoredRackKey(stored, v);
      SortKeepsElements(ValuesOf(labels, RACK_TOPOLOGY_KEY));
    }
  }

  lemma RackKeyIsKept(fd: string, fdKey: string, nodes: seq<Node>, labels: Labels)
    ensures RACK_TOPOLOGY_KEY !in Dropped(fd, fdKey, nodes, labels)
  {
    forall key | key in ZONE_KEYS || key in REGION_KEYS ensures key != RACK_TOPOLOGY_KEY {
      assert |key| != |RACK_TOPOLOGY_KEY|;
    }
  }

  method TidyLabels(status: TopologyStatus, nodes: seq<Node>, topologyMap: NodeTopologyMap, ghost stored: Stored)
    requires Tidy(topologyMap.Labels) && ListsRackKey(topologyMap.Labels, stored)
    modifies topologyMap
    ensures topologyMap.Labels ==
            SortedLabels(old(topologyMap.Labels) -
                         Dropped(status.FailureDomain, status.FailureDomainKey, nodes, old(topologyMap.Labels)))
    ensures Tidy(topologyMap.Labels) && ListsRackKey(topologyMap.Labels, stored)
  {
    ghost var labels := topologyMap.Labels;
    FilterDuplicateLabels(status.FailureDomain, status.FailureDomainKey, nodes, topologyMap);
    RackKeyIsKept(status.FailureDomain, status.FailureDomainKey, nodes, labels);
    SortedListsRackKey(labels, topologyMap.Labels, stored);
    SortTopologyMapLabelValues(topologyMap);
  }

  lemma RunKeepsRacksApart(minRacks: int, before: Stored, nodes: seq<Node>, states: seq<Racks>)
    requires minRacks >= 1 && IsSnapshot(before, nodes) && StoredOneZone(before) && StoredZonesApart(before)
    requires IsRun(nodes, minRacks, states) && NoEmptyRack(states[0]) && Mirrors(states[0], before)
    ensures ZonesApart(nodes, states[|states| - 1])
  {
    RunIsOpen(nodes, minRacks, states);
    SnapshotOneZone(before, nodes);
    RacksApartFromStored(before, nodes, states[0]);
    RunZonesApart(nodes, minRacks, states, |states| - 1);
  }

  /** No run, complete or stopped by a failed patch, mixes zones in a stored rack. */
  lemma RunKeepsStoredApart(minRacks: int, before: Stored, after: Stored, nodes: seq<Node>, states: seq<Racks>)
    requires minRacks >= 1 && IsSnapshot(before, nodes) && Patched(before, after)
    requires IsRun(nodes, minRacks, states) && NoEmptyRack(states[0]) && Mirrors(states[0], before)
    requires Covers(states[|states| - 1], after)
    ensures StoredOneZone(before) && StoredZonesApart(before) ==> StoredZonesApart(after)
  {
    if StoredOneZone(before) && StoredZonesApart(before) {
      RunKeepsRacksApart(minRacks, before, nodes, states);
      StoredApartFromRacks(before, after, nodes, states[|states| - 1]);
    }
  }

  // ----- one run

  /** The map read off the nodes by a run that started with this failure domain and key:
      what the nodes say, without the redundant keys, each list sorted. */
  ghost predicate ReadFrom(domain: string, key: string, nodes: seq<Node>, read: Labels)
  {
    exists labels :: ListsTopology(labels, nodes) && read == Tidied(domain, key, nodes, labels)
  }

  ghost function Tidied(domain: string, key: string, nodes: seq<Node>, labels: Labels): Labels
  {
    SortedLabels(labels - Dropped(domain, key, nodes, labels))
  }

  /** How every node got a rack: from the stored labels `before`, read as `states[0]`, the
      loop over the nodes led to the racks of the last state and to the labels `after`; the
      rack key of the topology map, and nothing else in it, grew from what was read. */
  ghost predicate RacksAssigned(before: Stored, minNodes: int, nodes: seq<Node>, read: Labels, states: seq<Racks>,
                                after: Stored, labels: Labels)
  {
    && AllLabelled(nodes) && minNodes >= 1 && |states| == |nodes| + 1 && IsRun(nodes, minNodes, states)
    && NoEmptyRack(states[0]) && Mirrors(states[0], before)
    && Mirrors(states[|nodes|], after) && AllRacked(after) && Patched(before, after)
    && Tidy(labels) && ListsRackKey(labels, after)
    && GrewAtRackKey(read, labels)
  }

  /** A run as seen from outside, `before` and `was` to `after` and `now`, with what it
      read and did on the way. */
  datatype Run = Run(
    before: Stored, was: TopologyView,
    minNodes: int, nodes: seq<Node>, read: Labels, states: seq<Racks>,
    after: Stored, now: TopologyView)

  /** The run went through. */
  ghost predicate Complete(spec: TopologySpec, run: Run)
  {
    && IsMinimum(spec, run.minNodes) && IsSnapshot(run.before, run.nodes) && |run.nodes| >= run.minNodes
    && ReadFrom(run.was.domain, run.was.key, run.nodes, run.read) && Tidy(run.read)
    && ListsRackKey(run.read, run.before)
    && run.now.domain == (if run.was.domain != "" then run.was.domain else ChosenDomain(spec, run.read))
    && Answers(run.read, if run.was.domain == "" && spec.singleNode then "host" else run.now.domain,
               run.now.key, run.now.values)
    && if run.now.domain == "rack"
       then RacksAssigned(run.before, run.minNodes, run.nodes, run.read, run.states, run.after, run.now.labels)
       else run.after == run.before && run.now.labels == run.read
  }

  /** `ensureNodeRacks` on racks and labels freshly read from the nodes. */
  method AssignRacks(api: NodeApi, nodes: seq<Node>, minNodes: int, nodeRacks: NodeTopologyMap,
                     topologyMap: NodeTopologyMap)
    returns (end: Ending, ghost states: seq<Racks>)
    requires nodeRacks != topologyMap && minNodes >= 1 && IsSnapshot(api.stored, nodes)
    requires Mirrors(nodeRacks.Labels, api.stored) && NoEmptyRack(nodeRacks.Labels)
    requires Tidy(topologyMap.Labels) && ListsRackKey(topologyMap.Labels, api.stored)
    modifies api, nodeRacks, topologyMap
    ensures api.faulty == (old(api.faulty) || end == Failed)
    ensures end == Panicked ==> !AllLabelled(nodes)
    ensures Patched(old(api.stored), api.stored)
    ensures old(StoredOneZone(api.stored) && StoredZonesApart(api.stored)) ==> StoredZonesApart(api.stored)
    ensures end == Done ==>
              RacksAssigned(old(api.stored), minNodes, nodes, old(topologyMap.Labels), states, api.stored,
                            topologyMap.Labels)
  {
    ghost var stored := api.stored;
    end, states := EnsureNodeRacks(api, nodes, minNodes, nodeRacks, topologyMap);
    RunKeepsStoredApart(minNodes, stored, api.stored, nodes, states);
  }

  /** The loop over the nodes, the filter and the sort. */
  method ReadTopology(nodes: seq<Node>, status: TopologyStatus, ghost stored: Stored)
    returns (topologyMap: NodeTopologyMap, nodeRacks: NodeTopologyMap)
    requires IsSnapshot(stored, nodes)
    ensures fresh(topologyMap) && fresh(nodeRacks) && topologyMap != nodeRacks
    ensures Mirrors(nodeRacks.Labels, stored) && NoEmptyRack(nodeRacks.Labels)
    ensures ReadFrom(status.FailureDomain, status.FailureDomainKey, nodes, topologyMap.Labels)
    ensures Tidy(topologyMap.Labels) && ListsRackKey(topologyMap.Labels, stored)
  {
    topologyMap := new NodeTopologyMap();
    nodeRacks := new NodeTopologyMap();
    ReadLabels(nodes, topologyMap, nodeRacks);
    SnapshotRacks(stored, nodes, nodeRacks.Labels);
    SnapshotRackKey(stored, nodes, topologyMap.Labels);
    TidyLabels(status, nodes, topologyMap, stored);
  }

  /** The part of a run from the list of nodes on. */
  method ReconcileNodes(api: NodeApi, spec: TopologySpec, status: TopologyStatus, minNodes: int, nodes: seq<Node>)
    returns (end: Ending, ghost run: Run)
    requires IsMinimum(spec, minNodes) && IsSnapshot(api.stored, nodes) && |nodes| >= minNodes
    modifies api, status
    ensures run.before == old(api.stored) && run.was == old(status.View())
    ensures run.after == api.stored && run.now == status.View()
    ensures end == Done ==> Complete(spec, run) && run.nodes == nodes
    ensures end == Panicked ==> run.now.domain == "rack" && !AllLabelled(nodes)
    ensures api.faulty == (old(api.faulty) || end == Failed)
    ensures Patched(run.before, run.after)
    ensures StoredOneZone(run.before) && StoredZonesApart(run.before) ==> StoredZonesApart(run.after)
  {
    ghost var before, was := api.stored, status.View();
    var topologyMap, nodeRacks := ReadTopology(nodes, status, api.stored);
    ghost var read, states := topologyMap.Labels, [];
    status.NodeTopologies := topologyMap;
    SetFailureDomain(spec, status);
    end := Done;
    if status.FailureDomain == "rack" {
      end, states := AssignRacks(api, nodes, minNodes, nodeRacks, topologyMap);
    }
    run := Run(before, was, minNodes, nodes, read, states, api.stored, status.View());
  }

  ghost predicate StoredLabelled(stored: Stored)
  {
    forall name :: name in stored ==> stored[name] != map[]
  }

  lemma SnapshotLabelled(stored: Stored, nodes: seq<Node>)
    requires IsSnapshot(stored, nodes)
    ensures StoredLabelled(stored) <==> AllLabelled(nodes)
  {
    forall name | name in stored ensures Node(name, stored[name]) in nodes {
    }
  }

  /** One run. Whatever happens on the way, the stored nodes only gain rack labels and no
      rack mixes zones. It goes through unless a call fails, there are too few nodes, or,
      under the rack failure domain, some node has no labels: that node ends it in a panic. */
  method ReconcileNodeTopologyMap(api: NodeApi, spec: TopologySpec, status: TopologyStatus)
    returns (err: Option<TopologyError>, ghost run: Run)
    modifies api, status
    ensures run.before == old(api.stored) && run.was == old(status.View())
    ensures run.after == api.stored && run.now == status.View()
    ensures err.None? ==> Complete(spec, run)
    ensures api.faulty == (old(api.faulty) || err == Some(ListFailed) || err == Some(PatchFailed))
    ensures err == Some(NotEnoughNodes) ==> !Reaches(spec, |run.before|)
    ensures err == Some(NotEnoughNodes) || err == Some(ListFailed) ==> run.after == run.before && run.now == run.was
    ensures !api.faulty && Reaches(spec, |run.before|) ==>
              err == if run.now.domain == "rack" && !StoredLabelled(run.before) then Some(Panic) else None
    ensures Patched(run.before, run.after)
    ensures StoredOneZone(run.before) && StoredZonesApart(run.before) ==> StoredZonesApart(run.after)
  {
    run := Run(api.stored, status.View(), 0, [], map[], [], api.stored, status.View());
    var minNodes := GetMinimumNodes(spec);
    var listed, items := api.List();
    if !listed { return Some(ListFailed), run; }
    SnapshotSize(api.stored, items);
    if |items| < minNodes { return Some(NotEnoughNodes), run; }
    SnapshotLabelled(api.stored, items);
    var end;
    end, run := ReconcileNodes(api, spec, status, minNodes, items);
    match end {
      case Done => err := None;
      case Failed => err := Some(PatchFailed);
      case Panicked => err := Some(Panic);
    }
  }
}
