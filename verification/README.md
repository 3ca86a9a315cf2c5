# StorageCluster controller: a Dafny model

The operator reconciles StorageCluster objects: it elects the cluster to work on, hands
every storage node a rack, turns device sets into OSD sets and pools, runs an ordered list
of resource managers, reports a phase and conditions, and tears everything down behind a
finalizer. A metrics process keeps a cache of persistent volumes and of the RBD clients
that watch them. This project models these parts and proves what they keep over whole runs.

The API server is a map of objects; every call on it may fail. Go's map iteration is an
arbitrary choice. Code that changes objects step by step is a method over a class and is
proved against a specification function or relation; the lemmas are about those.

| files | what they model |
|---|---|
| `NodeTopologyMap`, `Nodes`, `RackPlacement`, `RackProperties`, `NodeRacks`, `FailureDomains`, `TopologyReconcile`, `TopologyRuns`, `SingleNodeRuns`, `ZoneChoice` | topology labels, rack assignment, failure domain |
| `Clusters`, `Election` | the snapshot of all clusters and the election protocol |
| `Conditions`, `Phases` | conditions, manager loop, final phase, upgrade gate |
| `DeviceSets` | OSD sets, expansion, pools |
| `BackingStorageClasses`, `Uninstall` | convergence and teardown |
| `PvCache` | volume cache, blocklist, collector |
| `Collections`, `Text` | sequences and sets; Go strings |

`dafny verify dfyconfig.toml` checks the whole project.

## What the proofs found

Each failure has a lemma at a concrete input, and where a condition decides, one that gives it.

- A failed validation writes phase Error before the election gate, so two internal clusters
  can both be live (`Election.FailedValidationsBreakElection`). Over a whole run the
  guarantee holds if and only if no validation fails beside a live cluster in conflict
  (`Election.RunExclusiveIffFailsApart`). Beside such a pair the upgrade gate can pass although
  a live cluster is not ready (`Election.UpgradeGateNeedsElection`).
- A cluster that was Ready is stored as Ready although its CephCluster is being updated, when
  the operator's Upgradeable condition cannot be published: the run ends before it computes
  the phase (`controllers/storagecluster/reconcile.go:563-567`;
  `Phases.UnpublishedStaysReady`). `Phases.InternalTells` has the exact condition for Ready.
- An external cluster can be Ready beside something negative. It is Ready if and only if
  nothing negative was seen, or its CephCluster was found connected, or it was Ready before
  and its CephCluster was not found with a state (`Phases.ExternalTells`). So it is beside a
  rejected NooBaa (`Phases.ExternalReadyBesideNoobaa`), and while a CephCluster that was gone
  is created anew (`Phases.ExternalReadyWhileCreated`). Phase NotReady never survives the
  manager loop.
- `FailureDomainValues` lags one run behind the racks, because the failure domain is set
  before racks are handed out (`TopologyRuns.FirstRunLags`). It is complete after a run if and
  only if that run had no rack to invent (`TopologyRuns.ValuesCompleteIffRacksSuffice`).
- A run may list labels that the next one drops: `TopologyRuns.NextRunKeepsLabelsIff` says
  when the run that chooses the failure domain and the next one store the same lists. With one
  of the stable keys as failure-domain key only old keys without their stable one are lost;
  with any other key a stable label is lost unless the nodes agree on its family
  (`SingleNodeRuns.SingleNodeForgets`).
- On a single node the failure-domain values are looked up under "host" in the first run and
  under "osd" in every later one. They are lost if and only if the node has a topology label
  with "host" in its key and none with "osd" (`SingleNodeRuns.SingleNodeForgetsIff`,
  `SingleNodeForgets`).
- Under the rack failure domain a node without labels ends the run in a panic, when the rack
  label is written into its nil labels; without a failing call this is the only obstacle to a
  run with enough nodes (`TopologyReconcile.ReconcileNodeTopologyMap`,
  `TopologyRuns.UnlabelledNodePanics`).
- A device set replaced by a larger one of another name is not seen as an expansion
  (`DeviceSets.ReplacementIsMissed`).
- An instance that enters a run as Expanding is set back to Progressing after the first
  manager, so the branch at `controllers/storagecluster/cephcluster.go:310-313` changes
  nothing (`Phases.StaysExpandingIsIdle`).
- A backing-class entry that cannot be acted on does not protect its labelled class: the
  class is deleted (`BackingStorageClasses.InvalidEntryWitness`, `InvalidEntryLosesClass`).
- Two valid entries of one name that disagree are rewritten in every run, and so is an entry
  whose parameters are present but empty (`BackingStorageClasses.DisagreeingEntriesNeverSettle`,
  `EmptyMapNeverSettles`); nothing else is (`SecondRunIsQuiet`).
- Only parameters are compared: a backing class of another provisioner or without the label
  is left as it is (`BackingStorageClasses.ForeignClassStays`; `ClassAsDesiredIff`).
- When the nodes cannot be listed, the first blocklisted client with a node makes the
  collector write to a nil map (`PvCache.CollectPanics`; `PvCache.Collect` says exactly when).

## Model

| member | source | states |
|---|---|---|
| NodeTopologyMaps.NodeTopologyMap.Contains | api/v1/topologymap.go:32-42 | finds a value exactly when it is listed under the key, a missing key included |
| NodeTopologyMaps.NodeTopologyMap.Add | api/v1/topologymap.go:56-62 | appends one value under one key, changes nothing else, and keeps lists duplicate-free when the value is new |
| NodeTopologyMaps.NodeTopologyMap.GetKeyValues | api/v1/topologymap.go:66-78 | answers with some label that contains the key and its list if there is one, otherwise with the key and nothing |
| Text.NumberedInjective | controllers/storagecluster/cephcluster.go:885 | a numbered name determines both its parts, dashes in the name included |
| Text.LessIff | controllers/storagecluster/topology.go:203 | string order without recursion: a proper prefix comes first, otherwise the first character in which the strings differ decides |
| Text.SortedUnique | controllers/storagecluster/topology.go:332-337 | a multiset of strings has one sorted listing, in ascending order by `LessIff`, so the order in which a map was walked cannot be seen after the sort |
| Nodes.RackPatchKeepsZones | controllers/storagecluster/topology.go:261-263 | writing the rack label changes no zone of the node and puts an unracked node into exactly that rack |
| Nodes.PlainLabels | controllers/storagecluster/topology.go:298-311 | a plain "zone" label is no topology label and names no zone, while a plain "rack" label names a rack |
| RackPlacement.TakenShrinks | controllers/storagecluster/topology.go:185-192 | every step of the unbounded name search passes a taken name that it cannot meet again: the termination measure |
| RackPlacement.FirstFreeBound | controllers/storagecluster/topology.go:125-133 | the search ends at a free name after at most as many steps as there are racks, and skips no free name |
| RackPlacement.InventedNames | controllers/storagecluster/topology.go:125-193 | below the minimum the added rack has the least free number of all; a rack added for a zone no other fits has the least free number from the number of racks on |
| RackPlacement.LeastUnique | controllers/storagecluster/topology.go:200-209 | among any candidates at most one rack is least by node count and name |
| RackPlacement.LeastExists | controllers/storagecluster/topology.go:200-209 | any non-empty set of candidate racks has a least one |
| RackPlacement.LeastIff | controllers/storagecluster/topology.go:200-209 | the least rack in plain terms: fewest nodes, and among those with as few the first name by prefix and first differing character |
| RackPlacement.FourthNodeJoinsTheFirstRack | controllers/storagecluster/topology.go:200-208 | with one node each in rack0, rack1 and rack2 a fourth node without a zone joins rack0 |
| RackPlacement.TargetZone | controllers/storagecluster/topology.go:135-146 | comes up with one of the node's zones, or with nothing exactly when it has none |
| RackPlacement.RackHoldsZone | controllers/storagecluster/topology.go:156-177 | says yes exactly when some node listed in the rack carries the zone |
| RackPlacement.FirstFewestIsLeast | controllers/storagecluster/topology.go:200-208 | in a sorted list the first rack with the fewest nodes is the least by count and name |
| RackPlacement.FewestNodes | controllers/storagecluster/topology.go:200-209 | returns the least candidate, in the sense `LeastIff` spells out, whatever the order in which the candidates were collected; the list is never empty |
| RackPlacement.DeterminePlacementRack | controllers/storagecluster/topology.go:119-210 | the racks after the call and the chosen rack are those of the specification `Place`, for one of the node's zones; both name searches end. `LeastIff`, `InventedNames` and `PlaceIsOpen` say what `Place` chooses |
| RackPlacement.StepDeterministic | controllers/storagecluster/topology.go:135-193 | with one zone per node the placement of a node has one possible outcome |
| RackPlacement.RunDeterministic | controllers/storagecluster/topology.go:237-268 | with one zone per node a whole run of placements is determined by its start, whatever the map iteration orders |
| RackProperties.PlaceIsOpen | controllers/storagecluster/topology.go:119-210 | refinement: the chosen rack is a smallest one that already holds the zone, or a new one opened only below the minimum or when no rack holds the zone |
| RackProperties.RunIsOpen | controllers/storagecluster/topology.go:233-275 | refinement over runs: every run of the loop is a run of the abstract allocator, and no rack is empty between nodes |
| RackProperties.RunGrows | controllers/storagecluster/topology.go:233-275 | in every run no rack is empty and no node leaves its rack |
| RackProperties.RunHolds | controllers/storagecluster/topology.go:240-268 | after n nodes exactly the nodes racked before and the first n are in a rack |
| RackProperties.RunOneRackEach | controllers/storagecluster/topology.go:240-268 | in every run no node is listed twice, in one rack or in two |
| RackProperties.RunRackCount | controllers/storagecluster/topology.go:125-133 | after k placed nodes there are at least min(minimum, initial racks + k) racks |
| RackProperties.StepZonesApart | controllers/storagecluster/topology.go:148-193 | one placement never mixes zones in a rack |
| RackProperties.RunZonesApart | controllers/storagecluster/topology.go:233-275 | racks that kept zones apart still do after any number of placements, racks invented on the way included |
| RackProperties.StepLevel | controllers/storagecluster/topology.go:148-209 | one placement keeps racks of one zone within one node of each other |
| RackProperties.RunLevel | controllers/storagecluster/topology.go:233-275 | racks of one zone stay within one node of each other in every run from a level start, nodes without a zone among them |
| RackProperties.FreshClusterRacks | controllers/storagecluster/topology.go:114-209 | from no racks at all, after any number of nodes: level, zones apart, no empty rack, one rack per node, and min(minimum, n) racks |
| RackProperties.StepOpensRackIff | controllers/storagecluster/topology.go:125-193 | a placement opens a new rack if and only if there are too few or none holds the zone of the node; otherwise the zones held stay the same |
| RackProperties.RunOpensNoRackIff | controllers/storagecluster/topology.go:233-275 | a run gets by with the racks it started with if and only if every unracked node fitted into them at the start |
| NodeRacks.ReadNode | controllers/storagecluster/topology.go:297-314 | the topology map and the racks gain exactly the node's topology labels and racks, each value once |
| NodeRacks.ReadLabels | controllers/storagecluster/topology.go:296-314 | the topology map lists exactly the values the nodes have, the racks list exactly the labelled nodes, without duplicates or empty lists |
| NodeRacks.PlacedMirrors | controllers/storagecluster/topology.go:252-270 | placing a node and labelling it keeps the racks and the stored labels in step; between the two the racks know more, never less |
| NodeRacks.PatchListsRackKey | controllers/storagecluster/topology.go:254-265 | the rack key of the topology map keeps listing exactly the stored rack labels |
| NodeRacks.PatchKeeps | controllers/storagecluster/topology.go:261-270 | labelling another unracked node keeps "only unracked nodes changed, and only by a rack label" |
| NodeRacks.PlaceAndLabel | controllers/storagecluster/topology.go:252-270 | one turn for an unracked node: a step of the run; it fails exactly when the patch does and panics exactly when the node has no labels, and then stores nothing |
| NodeRacks.ListedAnywhere | controllers/storagecluster/topology.go:240-250 | finds the node exactly when some rack lists it |
| NodeRacks.EnsureNodeRack | controllers/storagecluster/topology.go:237-272 | one turn of the loop, for any node, keeps racks, stored labels and topology map in step; it fails exactly when the patch does and panics exactly on a node without labels |
| NodeRacks.EnsureNodeRacks | controllers/storagecluster/topology.go:233-275 | the loop performs a run; without a failed patch it panics if and only if some node has no labels; whatever happens, stored nodes only gain rack labels the racks know about; on success every node is racked and the maps mirror the stored labels |
| FailureDomains.NodesHaveIdenticalValuesForKeys | controllers/storagecluster/topology.go:342-365 | true exactly when every node has all the keys with one value |
| FailureDomains.FilterDuplicateLabels | controllers/storagecluster/topology.go:370-420 | removes exactly the redundant keys of the zone and region families, and keeps all other lists |
| FailureDomains.AgreedKeysListTheSame | controllers/storagecluster/topology.go:342-365 | nodes that agree on keys have the same sorted list under each of them |
| FailureDomains.RunsKeepSameLabels | controllers/storagecluster/topology.go:372-418 | the run that chooses the failure domain and a later one keep the same labels if and only if the nodes agree on every family whose stable key is in use |
| FailureDomains.StableKeyKeepsSameLabels | controllers/storagecluster/topology.go:372-388 | under a stable failure-domain key the first and a later filter keep the same labels if and only if no family has an old key in use without its stable one |
| TopologyReconcile.GetMinimumNodes | controllers/storagecluster/cephcluster.go:694-724 | four nodes with an arbiter, one on a single node, three otherwise, raised to the largest replica count of a device set |
| TopologyReconcile.SetFailureDomain | controllers/storagecluster/topology.go:73-112 | a chosen failure domain is kept; otherwise single node, flexible scaling and enough zones decide in this order, whatever the iteration order; `ZonesDecide` gives the threshold over the nodes' labels |
| TopologyReconcile.SortTopologyMapLabelValues | controllers/storagecluster/topology.go:332-337 | every list is replaced by its ascending permutation, no key is lost |
| TopologyReconcile.SnapshotSize | controllers/storagecluster/topology.go:282-294 | a node list that shows each stored node once has the size of the store, so the node-count guard is about stored nodes |
| TopologyReconcile.RacksApartFromStored | controllers/storagecluster/topology.go:296-314 | labels without mixed racks are read as racks without mixed zones |
| TopologyReconcile.StoredApartFromRacks | controllers/storagecluster/topology.go:252-270 | racks without mixed zones that know all stored labels mean stored labels without mixed racks |
| TopologyReconcile.RunKeepsStoredApart | controllers/storagecluster/topology.go:233-275 | no run, complete or stopped by a failed patch, mixes zones in a stored rack |
| TopologyReconcile.AssignRacks | controllers/storagecluster/topology.go:321-326 | `ensureNodeRacks` on fresh maps: fails exactly when a patch does, panics only with an unlabelled node; zones stay apart on the stored nodes either way; success is a complete assignment |
| TopologyReconcile.ReadTopology | controllers/storagecluster/topology.go:296-317 | the topology map is what the nodes say without the redundant keys, each list sorted; racks and rack key are in step with the stored labels |
| TopologyReconcile.ReconcileNodeTopologyMap | controllers/storagecluster/topology.go:279-329 | without a failed call and with enough nodes the run goes through, except that it panics exactly when the failure domain is rack and some node has no labels; it is then a complete run in the sense of `Complete`: map and failure domain come from what the nodes say, every node is racked under the rack domain; whatever happens, only rack labels are added and no rack mixes zones |
| TopologyRuns.FreshRun | controllers/storagecluster/topology.go:292-325 | a complete run on a cluster without rack labels ends with at least the minimum number of racks, each node in one, level per zone |
| TopologyRuns.SameNodesSameRead | controllers/storagecluster/topology.go:296-332 | what a run reads off the nodes does not depend on the order of the nodes or of any map |
| TopologyRuns.SettledIsFixpoint | controllers/storagecluster/topology.go:240-252 | once every node is racked the permitted changes are none |
| TopologyRuns.RackedRunStoresRead | controllers/storagecluster/topology.go:240-265 | a complete run that finds all nodes racked patches nothing and stores exactly what it read |
| TopologyRuns.SecondRunKeepsRacks | controllers/storagecluster/topology.go:279-329 | of any two complete runs in a row under the rack domain the second patches nothing, keeps every assignment and lists the sorted permutation of the same duplicate-free racks |
| TopologyRuns.ThirdRunChangesNothing | controllers/storagecluster/topology.go:279-329 | from the second run on the topology map is a fixpoint, and with one rack key in use so is the whole topology status |
| TopologyRuns.ValuesAreTheRacksBefore | controllers/storagecluster/topology.go:319-322 | with one rack key in use the failure-domain values of a run are the racks stored before it |
| TopologyRuns.ValuesCompleteIffRacksSuffice | controllers/storagecluster/topology.go:319-322 | with one rack label and one zone per node the values are complete after a run if and only if before it all nodes were racked, or there were enough racks and each unracked node had no zone or one with a rack |
| TopologyRuns.SecondRunValuesComplete | controllers/storagecluster/topology.go:319-322 | one run later the values are complete |
| TopologyRuns.PlainClusterLags | controllers/storagecluster/topology.go:279-329 | any cluster of just the minimum number of nodes, each with labels but none with a topology or rack label, has a complete run that racks all nodes and stores no failure-domain values |
| TopologyRuns.FirstRunLags | controllers/storagecluster/topology.go:319-322 | such a run on three nodes that carry only the label they are selected by |
| TopologyRuns.UnlabelledNodePanics | controllers/storagecluster/topology.go:261-262 | three nodes, one without labels: no run under the rack domain gets through |
| TopologyRuns.MigrationKeepsValues | controllers/storagecluster/topology.go:390-411 | when all nodes agree on the three zone keys, the list left under the stable key is the sorted list that stood under each dropped key |
| TopologyRuns.RunMigrates | controllers/storagecluster/topology.go:296-326 | a complete run that starts with a failure domain stores, under the stable key, sorted and once each, exactly what such nodes say under each old key, and drops the old keys |
| TopologyRuns.NextRunKeepsLabelsIff | controllers/storagecluster/topology.go:372-418 | the run that chooses the failure domain, whichever, and the next one store the same lists, but for the racks, if and only if: under a stable failure-domain key, no old key is in use without its stable one; under any other, the nodes agree on every family whose stable key is in use |
| SingleNodeRuns.ReadHasIff | controllers/storagecluster/topology.go:296-317 | a run reads a key that contains a text exactly when some node has such a topology label, for texts no zone or region key contains |
| SingleNodeRuns.SingleNodeForgetsIff | controllers/storagecluster/topology.go:73-93 | over two runs on a single node the failure-domain values are lost if and only if some topology label has "host" in its key and none has "osd" |
| SingleNodeRuns.SingleNodeForgets | controllers/storagecluster/topology.go:73-93 | two complete runs on one node with a host name and the stable zone label: the second has lost the value and the zone |
| ZoneChoice.ReadCountsValues | controllers/storagecluster/topology.go:296-317 | a list that a run has read is as long as there are distinct values on the stored nodes |
| ZoneChoice.ZonesDecide | controllers/storagecluster/topology.go:73-112 | over a complete run that chooses the failure domain: osd on a single node, host with flexible scaling, otherwise zone if and only if the nodes carry three distinct values under some listed zone key, or two with an arbiter, and rack if they do not |
| ZoneChoice.CountZones | controllers/storagecluster/topology.go:101-110 | on nodes whose only zone label is the stable one the number of distinct zones decides: at most one gives rack, two give zone only with an arbiter, three always |
| ZoneChoice.TwoZonesNeedAnArbiter | controllers/storagecluster/topology.go:104 | four nodes in zones a and b give rack, with an arbiter zone; four nodes in a, b and c give zone |
| ZoneChoice.ListedZonesDecide | controllers/storagecluster/topology.go:104 | the threshold on a map that lists some zones and nothing else |
| Clusters.Snapshot.constructor | controllers/util/clusters.go:71-127 | the snapshot shows every stored cluster once under its kind, sorted, and repeated names are exactly names of two clusters, whatever the list order |
| Clusters.Snapshot.GetStorageClustersInNamespace | controllers/util/clusters.go:35-45 | lists exactly the stored clusters of the namespace, each once |
| Clusters.Snapshot.HasMultipleStorageClustersWithSameName | controllers/util/clusters.go:148-159 | true exactly when two stored clusters have the name |
| Clusters.Snapshot.AreOtherStorageClustersReady | controllers/util/clusters.go:130-142 | true exactly when every stored cluster of another name and another namespace is Ready |
| Election.IsStorageClusterNotIgnored | controllers/storagecluster/reconcile.go:740-765 | the loop with its early returns answers a plain for-all question about the list; `YieldsIff` spells it out on creation times and names |
| Election.YieldsIff | controllers/storagecluster/reconcile.go:744-760 | of two waiting clusters the one created first wins, then the one whose name sorts first; any other cluster stands in the way unless it was ignored |
| Election.IsActiveStorageCluster | controllers/storagecluster/reconcile.go:701-738 | active exactly when undeleted, in the right namespace, of a unique name, and every rival in namespace or kind yields; `ActiveIff` says it on the fields |
| Election.ActiveIff | controllers/storagecluster/reconcile.go:701-765 | on the fields of all stored clusters: undeleted, in the operator's namespace if internal, no namesake, and every cluster of its namespace or kind is ignored, or waits and was created later, or at the same time under a later name |
| Election.OlderOfTwoIsActive | controllers/storagecluster/reconcile.go:749-756 | of waiting clusters a and b in the operator's namespace b is active if it was created first, and a otherwise |
| Election.ActiveHasNoLiveConflict | controllers/storagecluster/reconcile.go:701-765 | an active cluster shares kind, namespace or name with no live cluster |
| Election.StepKeepsElected | controllers/storagecluster/reconcile.go:307-315 | every create, reconcile, delete-mark and remove step keeps the election invariant |
| Election.StepKeepsExclusive | controllers/storagecluster/reconcile.go:307-315 | every step but a failed validation keeps live clusters apart, whatever namespaces they are in |
| Election.RunKeepsElected | controllers/storagecluster/reconcile.go:307-315 | over every run whose validations pass at most one internal and one external cluster is live, and no two live ones share a namespace or a name |
| Election.IgnoredStaysIgnored | controllers/storagecluster/reconcile.go:313-315 | a cluster that lost stays ignored for as long as it exists |
| Election.FailedKeepsExclusive | controllers/storagecluster/reconcile.go:222-288 | a failed validation keeps the guarantee if and only if no live cluster conflicts with the one that failed |
| Election.RunExclusiveIffFailsApart | controllers/storagecluster/reconcile.go:222-315 | over every run, failed validations included, live clusters exclude each other throughout if and only if no validation fails beside a live cluster in conflict |
| Election.FailedValidationsBreakElection | controllers/storagecluster/reconcile.go:238-250 | four steps from nothing to two live internal clusters in one namespace |
| Election.ActiveIffFirst | controllers/storagecluster/reconcile.go:749-756 | among waiting internal clusters active means first by creation time and name |
| Election.ExactlyOneActive | controllers/storagecluster/reconcile.go:701-765 | exactly one of the waiting internal clusters is active; none was created before it, and one created at the same time has a name that sorts later |
| Election.DecidedStep | controllers/storagecluster/reconcile.go:307-315 | no reconcile takes the win from the first or lets another one go live |
| Election.FirstWins | controllers/storagecluster/reconcile.go:307-315 | in whatever order and however often waiting clusters are reconciled, the first one wins |
| Election.UpgradeGate | controllers/util/clusters.go:130-142 | under the election guarantee the check passes if and only if every other live cluster is Ready and every cluster it looks at is live |
| Election.UpgradeGateNeedsElection | controllers/util/clusters.go:132-138 | without the guarantee it can pass beside a live cluster in error |
| DeviceSets.GoDiv | controllers/storagecluster/cephcluster.go:997 | integer division that truncates toward zero, negative counts included |
| DeviceSets.NewStorageClassDeviceSets | controllers/storagecluster/cephcluster.go:752-983 | the OSD sets in order, regular ones first, then one pinned set per failure-domain value; an empty device-set list with values to serve ends in a panic |
| DeviceSets.RegularSetComesFrom | controllers/storagecluster/cephcluster.go:795-911 | every regular set belongs to one replica of one device set, with that name and number, a third of the devices if there is no replica count, and the class "replicated" beside non-resilient pools, else the device class, else the device type |
| DeviceSets.ReplicaHasSet | controllers/storagecluster/cephcluster.go:795-911 | every replica of every device set has its regular set |
| DeviceSets.OsdConservation | controllers/storagecluster/cephcluster.go:884-925 | the OSDs of all sets are the sum of count times replica, three thirds rounded down without a replica count, plus the non-resilient count for every failure-domain value |
| DeviceSets.GetOsdCount | controllers/storagecluster/cephcluster.go:1352-1359 | the count is that conserved sum |
| DeviceSets.RegularNamesDistinct | controllers/storagecluster/cephcluster.go:884-886 | device sets of distinct names give OSD sets of distinct names |
| DeviceSets.AllNamesDistinct | controllers/storagecluster/cephcluster.go:920-940 | with non-resilient sets added, names stay distinct if and only if the values are distinct and none is a regular set's name |
| DeviceSets.IsExpanding | controllers/storagecluster/cephcluster.go:330-344 | more desired than found sets expand, fewer never do, and with as many it decides whether a same-named set grew |
| DeviceSets.GrowthIsDetected | controllers/storagecluster/cephcluster.go:326-345 | completeness: found sets all still desired and more OSDs desired is always detected |
| DeviceSets.DetectionMeansGrowth | controllers/storagecluster/cephcluster.go:326-345 | soundness: what is detected is an added set or a same-named one that grew |
| DeviceSets.ReplacementIsMissed | controllers/storagecluster/cephcluster.go:332-336 | two specs whose OSD sets are found and desired: a device set replaced by a larger one of another name goes unnoticed |
| DeviceSets.NewCephBlockPoolInstances | controllers/storagecluster/cephblockpools.go:44-130 | main pool, one pool per failure-domain value in order, NFS pool, each with its class and failure domain |
| DeviceSets.GetTopologyConstrainedPools | controllers/storagecluster/storageclasses.go:493-529 | one entry per failure-domain value in order, host read as hostname |
| DeviceSets.PoolsUseTheirSets | controllers/storagecluster/cephblockpools.go:56-120 | a pool and an OSD set share a class exactly when they belong to one failure-domain value, or are the main or NFS pool and a regular set; the topology entry of the value names that pool, labels the failure domain (hostname for host), and the set is pinned to its value; every pool has the cluster's failure domain |
| DeviceSets.PlainPools | controllers/storagecluster/cephblockpools.go:44-130 | without non-resilient pools there are the main and perhaps the NFS pool, of any class, over the cluster's failure domain |
| DeviceSets.PoolNamesDistinct | controllers/storagecluster/generate.go:35-57 | pool names are distinct if and only if the failure-domain values are |
| Conditions.StatusOfPut | controllers/util/status.go:86-91 | setting a condition changes the status of its kind only |
| Conditions.StatusOfDrop | controllers/util/status.go:210-217 | removing a condition leaves every other kind as it was |
| Conditions.ConditionList.MapCephClusterNegativeConditions | controllers/util/status.go:131-173 | the statuses of every kind after each CephCluster state; the list stays empty exactly for states that are not negative |
| Conditions.ConditionList.MapExternalCephClusterNegativeConditions | controllers/util/status.go:177-207 | the statuses of every kind after each external state; the list stays empty exactly for states other than connecting and error |
| Conditions.ConditionList.MapCephClusterNoConditions | controllers/util/status.go:221-240 | the statuses when nothing was reported; the list is never empty afterwards |
| Conditions.ConditionList.SetStatusConditionIfNotPresent | controllers/util/status.go:243-252 | the status of one kind, the others unchanged, whether or not it was there |
| Conditions.ConditionList.MapNoobaaNegativeConditions | controllers/util/status.go:256-294 | the statuses of every kind after each NooBaa phase, a missing NooBaa included; empty exactly when it was empty and NooBaa is ready |
| Conditions.OnlyBadNews | controllers/util/status.go:131-294 | which kinds each CephCluster state and NooBaa phase speaks about, and that what is said is always bad news: not available, progressing, degraded, not upgradeable |
| Conditions.ConditionList.Merge | controllers/storagecluster/reconcile.go:550-552 | conditions gathered in the run win, all others stay |
| Phases.EnsureCephCluster | controllers/storagecluster/cephcluster.go:245-345 | what the manager makes of both phases and of the gathered conditions, and how it ends: conditions grow exactly for a negative state, an expansion is taken over exactly when detected, the phase of an external cluster follows the state exactly when one is found |
| Phases.EnsureNoobaaSystem | controllers/storagecluster/noobaa_system_reconciler.go:32-119 | acts only in the operator namespace, unless ignored, and on a created or connected CephCluster unless standalone; conditions grow exactly for a NooBaa it saw that is not ready |
| Phases.NoobaaWaitsForCeph | controllers/storagecluster/noobaa_system_reconciler.go:40-119 | beside a CephCluster NooBaa is left alone until that is created, or connected if external; from then on its errors are the outcome and every phase but Ready is negative |
| Phases.Record | controllers/storagecluster/reconcile.go:435-472 | the phase, the error condition and the way the loop goes on, for every outcome of a manager and of the publication during an expansion; `StopTells` says what a stopped loop leaves |
| Phases.Turn | controllers/storagecluster/reconcile.go:434-472 | one turn keeps the meaning of what was gathered so far; it stops exactly for an outcome that is not fine or a failed publication during an expansion, with the phase, result and condition that the outcome stands for |
| Phases.StaysExpandingIsIdle | controllers/storagecluster/cephcluster.go:310-313 | an instance that is Expanding when the CephCluster manager gets its turn became so in this run |
| Phases.RunManagers | controllers/storagecluster/reconcile.go:434-473 | a loop that ran through has gathered something exactly when some manager saw something negative and is Expanding exactly when an expansion was seen; otherwise an internal cluster kept its phase and an external one has that of its CephCluster, if found; a stopped one was stopped by the first manager that did not pass |
| Phases.FirstFailureDecides | controllers/storagecluster/reconcile.go:452-472 | in a run that is stopped without an expansion the first manager that is not fine decides phase, result and condition, as `FailureTells` spells out |
| Phases.FinishReady | controllers/storagecluster/reconcile.go:495-539 | all conditions positive; the operator is published as upgradeable exactly as the other clusters and the connected clients allow |
| Phases.MayUpgradeIff | controllers/storagecluster/reconcile.go:507-539 | the operator may be declared upgradeable exactly when every cluster of another name and namespace is Ready and, with remote consumers, no client was counted as unsupported |
| Phases.FinishNegative | controllers/storagecluster/reconcile.go:540-579 | the merged conditions, and the phase they stand for; an Expanding or external cluster, and one whose publication failed, keeps its phase |
| Phases.Finish | controllers/storagecluster/reconcile.go:494-579 | the final phase, conditions and publication in terms of what was gathered: Expanding exactly for an expansion; Ready with nothing gathered; otherwise kept for an external cluster or a failed publication, else Progressing, NotReady or Error by the merged conditions; conditions that forbid an upgrade are published |
| Phases.Terminate | controllers/storagecluster/reconcile.go:350-380 | a run ends as terminated only with the finalizer gone after a clean teardown, and asks for another run exactly while the teardown is pending; upgradeable is published as true only if the other clusters are Ready |
| Phases.Enter | controllers/storagecluster/reconcile.go:307-330 | passes exactly live clusters and active waiting ones, with the phase and conditions they go on with; the others end ignored |
| Phases.ReconcilePhases | controllers/storagecluster/reconcile.go:290-579 | one reconcile is a step of the election protocol; a lost election publishes nothing; for a cluster not being deleted Upgradeable is published as true only when it is Ready and so are the others the gate looks at, and by the election invariant every live cluster then is; whenever the manager loop and the profile are through, `Tells` gives the exact condition for Ready, internal and external; without an expansion the first manager that is not fine decides: skipped classes leave Progressing and a requeue, any other failure Error and an incomplete reconcile, an onboarding cluster stays so, a bare requeue keeps the phase; an unobstructed run gets there |
| Phases.FirstManagerFails | controllers/storagecluster/reconcile.go:452-468 | an internal cluster whose first manager fails: Error and a failed run, Progressing and a requeue for skipped classes, and Onboarding kept |
| Phases.FewerSetsNeverExpand | controllers/storagecluster/cephcluster.go:330-344 | a cluster with fewer OSD sets desired than found never ends in phase Expanding |
| Phases.UnpublishedStaysReady | controllers/storagecluster/reconcile.go:561-578 | a Ready cluster stays Ready while its CephCluster is updated if the publication fails, and is Progressing otherwise |
| Phases.ExternalReadyBesideNoobaa | controllers/storagecluster/reconcile.go:569-578 | an external cluster is Ready beside a rejected NooBaa |
| Phases.ExternalReadyWhileCreated | controllers/storagecluster/cephcluster.go:248-264 | an external cluster that was Ready stays Ready while its CephCluster is created anew |
| Phases.UpgradeableMeansReady | controllers/storagecluster/reconcile.go:507-539 | a run that publishes Upgradeable as true leaves every live cluster Ready (every other one if it was terminating), by the election invariant |
| Phases.GrowthMakesExpanding | controllers/storagecluster/cephcluster.go:326-345 | more desired OSDs with all found sets kept end every run whose managers go through in phase Expanding |
| BackingStorageClasses.CreateOrUpdate | controllers/storagecluster/backingstorageclasses.go:75-136 | touches no other class, rejects an entry without effect exactly when it is invalid, and writes exactly when the class is missing or differs in the eyes of the comparison, which tells absent from empty parameters |
| BackingStorageClasses.TakeOver | controllers/storagecluster/backingstorageclasses.go:48-56 | after the loop the names left to delete are exactly the labelled classes no valid entry asks for; with faults, at least those no entry names |
| BackingStorageClasses.Sweep | controllers/storagecluster/backingstorageclasses.go:58-70 | deletes exactly the names left over, in any order; an error means a failed deletion, success that all are gone |
| BackingStorageClasses.EnsureCreated | controllers/storagecluster/backingstorageclasses.go:28-73 | whatever fails, unlabelled classes outside the spec are untouched; success means every labelled class is named in the spec; without a fault the result is determined, and nothing is written exactly when nothing needs to be |
| BackingStorageClasses.UnwantedUnchanged | controllers/storagecluster/backingstorageclasses.go:48-56 | a class no valid entry asks for passes the spec loop unchanged |
| BackingStorageClasses.WantedInPlace | controllers/storagecluster/backingstorageclasses.go:48-56 | later entries do not undo the class of an earlier one |
| BackingStorageClasses.ConvergedMeets | controllers/storagecluster/backingstorageclasses.go:28-136 | from every state one fault-free run leaves every valid entry in place, no other labelled class, and unlabelled classes outside the spec as they were |
| BackingStorageClasses.ClassAsDesiredIff | controllers/storagecluster/backingstorageclasses.go:107-133 | the class of a valid entry, the only one of its name, ends up labelled, with the provisioner of the entry (that of AWS by default) and its parameters, if and only if it was that already whenever its parameters were right |
| BackingStorageClasses.MissingClassIsCreatedIff | controllers/storagecluster/backingstorageclasses.go:75-136 | a missing class that one entry names is created if and only if the entry has a name, the platform is known, and a provisioner is given or the platform is AWS; it is labelled, with that provisioner and those parameters |
| BackingStorageClasses.ForeignClassStays | controllers/storagecluster/backingstorageclasses.go:120-133 | a class of another provisioner and without the label that a run leaves as it is |
| BackingStorageClasses.SecondRunIsQuiet | controllers/storagecluster/backingstorageclasses.go:28-136 | a second run writes nothing if and only if valid entries of one name agree and none has an empty map of parameters |
| BackingStorageClasses.DisagreeingEntriesNeverSettle | controllers/storagecluster/backingstorageclasses.go:48-56 | two entries of one name, rewritten in every run |
| BackingStorageClasses.EmptyMapNeverSettles | controllers/storagecluster/backingstorageclasses.go:120-133 | an entry with an empty map of parameters, rewritten in every run |
| BackingStorageClasses.QuietMeansUnchanged | controllers/storagecluster/backingstorageclasses.go:28-73 | a run that needs no write is a fixpoint |
| BackingStorageClasses.InvalidEntryLosesClass | controllers/storagecluster/backingstorageclasses.go:48-70 | a labelled class named in the spec survives if and only if some valid entry asks for it |
| BackingStorageClasses.InvalidEntryWitness | controllers/storagecluster/backingstorageclasses.go:48-70 | an entry without a provisioner whose labelled class is deleted |
| Uninstall.DeleteAndWait | controllers/storagecluster/cephblockpools.go:186-216 | success means the object was seen gone; it is asked to go exactly when it was seen, unless it was marked and marks are respected, and nothing else is; without a failed call a stop means it was seen |
| Uninstall.WaitForAll | controllers/storagecluster/cephblockpools.go:179-217 | success means all objects of the manager were seen gone and none is stored; without a failed call a stop means that the first that is left was asked to go, or seen marked where marks are respected |
| Uninstall.DeleteFilesystem | controllers/storagecluster/cephfilesystem.go:185-268 | a filesystem is asked to go only after its subvolume group was seen gone, unless groups are kept; success means it was seen gone; without a failed call a stop means that it or its group was asked to go, or the group seen marked |
| Uninstall.DeleteFilesystems | controllers/storagecluster/cephfilesystem.go:219-268 | the same over all filesystems of the manager, whatever call fails |
| Uninstall.DeleteUnawaited | controllers/storagecluster/storageclasses.go:73-99 | a manager that does not wait asks an object to go, or has looked and found it missing, or marked if it respects marks; one that looks first deletes only what it saw |
| Uninstall.FireAll | controllers/storagecluster/volumesnapshotterclasses.go:155-185 | the same over all objects of the manager: through without a failed call, every one was asked to go or needed no asking |
| Uninstall.DeleteProvider | controllers/storagecluster/provider_server.go:87-122 | nothing of the provider is asked to go before no StorageConsumer was left, and then everything is |
| Uninstall.DeleteNoobaa | controllers/storagecluster/noobaa_system_reconciler.go:260-317 | success means one of the three exceptions, or NooBaa and its volumes seen gone and not there any more; only an owned, unmarked NooBaa is asked to go, and a stop without a failed call means that it was, or was seen marked, or volumes are left |
| Uninstall.OrderedExtends | controllers/storagecluster/uninstall_reconciler.go:341-348 | the events of one more manager keep the order when all managers before it were cleared |
| Uninstall.DeleteInOrder | controllers/storagecluster/uninstall_reconciler.go:341-348 | every deletion comes after all earlier managers were cleared and is of the manager's own objects; without a failed call it stops only at the first manager that something was in the way of, which has asked for its first remaining object to go, as the managers before it have for theirs |
| Uninstall.DeleteResources | controllers/storagecluster/uninstall_reconciler.go:295-373 | before the managers only the CephCluster is asked to go, and it is unless it was seen marked or gone; the rest is ordered; success means every manager was cleared |
| Uninstall.Finalize | controllers/storagecluster/reconcile.go:354-370 | the finalizer goes only when every manager was cleared in this run, no consumer is left, and the objects waited for, NooBaa with its volumes among them, are no longer there; without a failed call every manager that was through has asked for its objects to go, the finalizer stays only for a blocked manager that has asked for its first remaining object, and with nothing left it goes |
| Uninstall.HeldUpRunHasAsked | controllers/storagecluster/uninstall_reconciler.go:341-348 | a run held up by the block pools saw the first ones gone and asked the next to go; one held up by the CephCluster asked for it or saw it marked, after the storage classes were asked to go, or seen gone or marked |
| Uninstall.DataOrder | controllers/storagecluster/uninstall_reconciler.go:318-348 | pools are asked to go only after filesystems and object stores were seen gone and no consumer was left; object stores only after their users; the CephCluster manager acts only after the pools; everything comes after NooBaa and its volumes |
| PvCache.PersistentVolumeStore.Add | metrics/internal/cache/pv.go:132-183 | the cache after the call is one event of the history applied, errors half way and the panic on a volume without a CSI source included; a failure that changed the cache has stored the volume |
| PvCache.PersistentVolumeStore.Delete | metrics/internal/cache/pv.go:213-225 | forgets the volume but none of its clients |
| PvCache.PersistentVolumeStore.Replace | metrics/internal/cache/pv.go:249-262 | a clear and the additions up to and including the first that fails, all of them exactly when none does |
| PvCache.PersistentVolumeStore.Resync | metrics/internal/cache/pv.go:265-285 | the additions alone, up to and including the first that fails, all of them exactly when none does |
| PvCache.AppendIfNotExists | metrics/internal/cache/pv.go:97-104 | adds a value once |
| PvCache.StoreIsHistory | metrics/internal/cache/pv.go:107-262 | over every history the store holds exactly the volumes whose last word is an eligible addition, with the name, claim, image and pool of that addition |
| PvCache.PutsIff | metrics/internal/cache/pv.go:132-183 | an addition stores its volume if and only if that is a claimed RBD volume with a CSI source of the configured cluster and the configuration is known; when the configuration is read; and which nodes an addition observes |
| PvCache.ReplaceHoldsList | metrics/internal/cache/pv.go:249-262 | after a successful Replace the store holds exactly the eligible volumes of the list |
| PvCache.WatchAdds | metrics/internal/cache/pv.go:178-180 | recording watchers adds exactly their pairs with the node and no duplicates |
| PvCache.ClientsAreHistory | metrics/internal/cache/pv.go:178-180 | over every history the client lists are duplicate-free and hold exactly the observed pairs of address and node |
| PvCache.ConfigStays | metrics/internal/cache/pv.go:139-151 | a monitor configuration once read is kept over every history |
| PvCache.IsBlocked | metrics/internal/cache/ceph-blocklist.go:148-156 | blocked exactly when an entry has the address and port and a nonce that is 0 or the same |
| PvCache.NonceDecides | metrics/internal/cache/ceph-blocklist.go:148-156 | an entry with nonce 0 blocks every client of its address and port, any other entry the one with its nonce |
| PvCache.Collect | metrics/internal/collectors/ceph-blocklist.go:61-93 | reports all nodes and every node with a blocked client, blocked exactly when a readable blocklisted client was seen on it; panics exactly when the node list failed and there is such a node |
| PvCache.CollectPanics | metrics/internal/collectors/ceph-blocklist.go:61-93 | one blocklisted client seen on a node, enough for the panic when the nodes cannot be listed |
| PvCache.BlockedIsHistory | metrics/internal/cache/pv.go:178-180 | from an empty cache a node is reported as blocked exactly when some addition in the history observed a blocklisted client on it |

## Left out

Weaker than the code, or under assumptions:

- TopologyReconcile.ReconcileNodeTopologyMap: the list of eligible nodes is all stored nodes; label selectors and taints are not modelled. What becomes of the status after a panic is not either.
- TopologyRuns.ThirdRunChangesNothing: the whole status is a fixpoint when no topology label other than the rack key contains "rack", since otherwise the map order decides which label answers; the topology map is one in any case.
- Election.MayLeave: a reconcile works on a fresh snapshot, one at a time, and whether a cluster is external never changes; stale caches and concurrent reconciles are not modelled.
- Election.RunKeepsElected: for runs whose validations pass; `RunExclusiveIffFailsApart` covers the others.
- Phases.ReconcilePhases: ends where the final phase is set; the metrics exporter, Prometheus rules and the rbd-mirror debug job after it can only turn the result into an error. Image statuses are left out.
- Phases.Surroundings: what the managers other than CephCluster and NooBaa do is an outcome (success, an error, a requeue), and so are the teardown, the annotations and the resource profile.
- Conditions.ConditionList.SetStatusConditionIfNotPresent: that an equal condition keeps its reason and message cannot be seen, since only kinds and statuses are modelled.
- Phases.EnsureCephCluster: what the manager does before it reads the CephCluster (validation, KMS, network, monitor data) is one failing outcome.
- DeviceSets.NewStorageClassDeviceSets: of an OSD set the name, the count, the class and the pinned label value are modelled; placement, resources, volume claims and tuning are not.
- DeviceSets.GetTopologyConstrainedPools: the list before it is encoded as JSON.
- DeviceSets.NewCephBlockPoolInstances: mirroring, quotas, replication and owner references of the pools are not modelled.
- Uninstall.Finalize: the keys of a manager's objects are data of the spec, and nothing creates such objects during the teardown; the uninstall mode, cleanup policy, taints and key deletions are outcomes.
- Uninstall.FireAll: that an object was asked to go, or needed no asking, is promised for runs without a failed call; managers that ignore errors promise no more.
- BackingStorageClasses.CreateOrUpdate: the platform is an input; a class stored without parameters is read back with none, as the API server does.
- PvCache.PersistentVolumeStore.Add: the configuration, the watchers from `rbd status` and the node of the consuming pod are inputs; the mutexes are not modelled.
- PvCache.Collect: the parse of a client address is an arbitrary partial function.

Not modelled at all:

- Reasons, messages and times of conditions; events and logs.
- Namespaces and namespaced names of the snapshot (`controllers/util/clusters.go:51-57,144-146`): the same loops over other fields.
- The validations themselves (`controllers/storagecluster/reconcile.go:630-699,788-864`): one-branch checks.
- Specs without state: network, monitor, NooBaa, KMS, deployments, services, jobs.
- The readiness gates of `createStorageClasses`, rbd-mirror toggling and resource-profile pod checks: settled by reading one branch or dependent on foreign libraries.
- External-mode resources, endpoint checks, and the `ceph` and `rbd` commands.
- Other metrics collectors, the command-line tools, functional tests and the deploy manager.
