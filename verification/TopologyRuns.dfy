/** What complete topology runs mean, alone and one after another. */
module TopologyRuns {
  import opened Collections
  import opened Text
  import opened Nodes
  import opened NodeTopologyMaps
  import opened RackPlacement
  import opened RackProperties
  import opened NodeRacks
  import opened FailureDomains
  import opened TopologyReconcile

  // ----- a cluster without racks

  /** No node is in any rack. */
  ghost predicate NoneRacked(stored: Stored)
  {
    forall name, rack :: !StoredInRack(stored, name, rack)
  }

  lemma UnrackedMeansNoRacks(stored: Stored, racks: Racks)
    requires Mirrors(racks, stored) && NoEmptyRack(racks) && NoneRacked(stored)
    ensures racks == map[]
  {
    forall rack ensures rack !in racks {
      assert rack in racks ==> racks[rack][0] in ValuesOf(racks, rack);
    }
  }

  /** What the racks look like when the loop is through, from no racks at all. */
  ghost predicate WellSpread(nodes: seq<Node>, minRacks: int, racks: Racks)
  {
    |racks| >= minRacks && OneRackEach(racks) && NoEmptyRack(racks) && (AllOneZone(nodes) ==> Balanced(nodes, racks))
  }

  lemma SpreadFromNothing(nodes: seq<Node>, minRacks: int, states: seq<Racks>)
    requires 1 <= minRacks <= |nodes| && IsRun(nodes, minRacks, states) && |states| == |nodes| + 1
    requires UniqueNames(nodes) && states[0] == map[]
    ensures WellSpread(nodes, minRacks, states[|nodes|])
  {
    RunIsOpen(nodes, minRacks, states);
    AllPlaced(nodes, minRacks, states, |nodes|);
    RunRackCount(nodes, minRacks, states, |nodes|);
    RunOneRackEach(nodes, minRacks, states, |nodes|);
    if AllOneZone(nodes) {
      RunLevel(nodes, minRacks, states, |nodes|);
    }
  }

  /** A complete run under the rack failure domain on a cluster without rack labels leaves
      every node in one rack, at least the minimum number of racks, and racks of one zone
      level. */
  lemma FreshRun(spec: TopologySpec, run: Run)
    requires Complete(spec, run) && run.now.domain == "rack" && NoneRacked(run.before)
    ensures WellSpread(run.nodes, run.minNodes, run.states[|run.nodes|]) && AllRacked(run.after)
    ensures Mirrors(run.states[|run.nodes|], run.after)
    ensures StoredOneZone(run.before) ==> Balanced(run.nodes, run.states[|run.nodes|])
  {
    UnrackedMeansNoRacks(run.before, run.states[0]);
    SpreadFromNothing(run.nodes, run.minNodes, run.states);
    if StoredOneZone(run.before) {
      SnapshotOneZone(run.before, run.nodes);
    }
  }

  // ----- what two readings of the same nodes have in common

  lemma SameValuesSameSorted(a: seq<string>, b: seq<string>)
    requires NoDuplicates(a) && NoDuplicates(b) && forall v :: v in a <==> v in b
    ensures SortStrings(a) == SortStrings(b)
  {
    SameElementsSameMultiset(a, b);
    SortedUnique(SortStrings(a), SortStrings(b));
  }

  /** Both list what the same nodes say, in whatever order the nodes came. */
  lemma SameNodesSameValues(a: Labels, b: Labels, na: seq<Node>, nb: seq<Node>)
    requires ListsTopology(a, na) && ListsTopology(b, nb)
    requires forall n :: n in na <==> n in nb
    ensures forall lbl, v :: v in ValuesOf(a, lbl) <==> v in ValuesOf(b, lbl)
  {
    forall lbl, v ensures SomeNodeHas(na, lbl, v) <==> SomeNodeHas(nb, lbl, v) {
    }
  }

  lemma SameValuesSameSortedLabels(a: Labels, b: Labels)
    requires Tidy(a) && Tidy(b) && forall lbl, v :: v in ValuesOf(a, lbl) <==> v in ValuesOf(b, lbl)
    ensures a.Keys == b.Keys && forall lbl :: lbl in a ==> SortStrings(a[lbl]) == SortStrings(b[lbl])
  {
    TidySameKeys(a, b);
    TidySameKeys(b, a);
    forall lbl | lbl in a ensures SortStrings(a[lbl]) == SortStrings(b[lbl]) {
      forall v ensures v in a[lbl] <==> v in b[lbl] {
        assert v in ValuesOf(a, lbl) <==> v in ValuesOf(b, lbl);
      }
      SameValuesSameSorted(a[lbl], b[lbl]);
    }
  }

  lemma TidySameKeys(a: Labels, b: Labels)
    requires Tidy(a) && forall lbl, v :: v in ValuesOf(a, lbl) ==> v in ValuesOf(b, lbl)
    ensures a.Keys <= b.Keys
  {
    forall lbl | lbl in a ensures lbl in b {
      assert a[lbl][0] in ValuesOf(a, lbl);
      assert a[lbl][0] in ValuesOf(b, lbl);
    }
  }

  lemma SnapshotsSameNodes(stored: Stored, na: seq<Node>, nb: seq<Node>)
    requires IsSnapshot(stored, na) && IsSnapshot(stored, nb)
    ensures forall n :: n in na <==> n in nb
  {
    forall n ensures n in na <==> n in nb {
      if n in na { assert n == Node(n.name, stored[n.name]); }
      if n in nb { assert n == Node(n.name, stored[n.name]); }
    }
  }

  /** The failure-domain key only matters where it is one of the stable keys. */
  predicate IsStableKey(key: string)
  {
    key == LABEL_ZONE_FAILURE_DOMAIN_STABLE || key == LABEL_ZONE_REGION_STABLE
  }

  lemma SameNodesSameDropped(fd: string, ak: string, bk: string, na: seq<Node>, nb: seq<Node>, a: Labels, b: Labels)
    requires a.Keys == b.Keys && forall n :: n in na <==> n in nb
    requires !IsStableKey(ak) && !IsStableKey(bk)
    ensures Dropped(fd, ak, na, a) == Dropped(fd, bk, nb, b)
  {
    assert Identical(na, ZONE_KEYS) <==> Identical(nb, ZONE_KEYS);
    assert Identical(na, REGION_KEYS) <==> Identical(nb, REGION_KEYS);
  }

  lemma SameNodesSameRead(fd: string, ak: string, bk: string, na: seq<Node>, nb: seq<Node>, a: Labels, b: Labels)
    requires ReadFrom(fd, ak, na, a) && ReadFrom(fd, bk, nb, b)
    requires forall n :: n in na <==> n in nb
    requires !IsStableKey(ak) && !IsStableKey(bk)
    ensures a == b
  {
    var la :| ListsTopology(la, na) && a == Tidied(fd, ak, na, la);
    var lb :| ListsTopology(lb, nb) && b == Tidied(fd, bk, nb, lb);
    SameNodesSameValues(la, lb, na, nb);
    SameValuesSameSortedLabels(la, lb);
    SameNodesSameDropped(fd, ak, bk, na, nb, la, lb);
    SameSortedWithout(la, lb, Dropped(fd, ak, na, la));
  }

  lemma SameSortedWithout(a: Labels, b: Labels, dropped: set<string>)
    requires a.Keys == b.Keys && forall lbl :: lbl in a ==> SortStrings(a[lbl]) == SortStrings(b[lbl])
    ensures SortedLabels(a - dropped) == SortedLabels(b - dropped)
  {
  }

  /** A key that contains "rack" is not one of the stable keys. */
  lemma RackAnswerIsNotStable(labels: Labels, key: string, values: seq<string>)
    requires Answers(labels, "rack", key, values)
    ensures !IsStableKey(key)
  {
    assert "rack" <= "rack"[0..];
    LacksCharLacksSubstring(LABEL_ZONE_FAILURE_DOMAIN_STABLE, "rack", 1);
    LacksCharLacksSubstring(LABEL_ZONE_REGION_STABLE, "rack", 1);
  }

  // ----- repeated runs

  ghost predicate Follows(a: Run, b: Run)
  {
    b.before == a.after && b.was == a.now
  }

  /** Once every node has a rack no run patches a node again. */
  lemma SettledIsFixpoint(before: Stored, after: Stored)
    requires Patched(before, after) && AllRacked(before)
    ensures after == before
  {
    forall name | name in before ensures after[name] == before[name] {
      assert Racked(Node(name, before[name]));
    }
  }

  lemma PrefixOfSameElements(a: seq<string>, b: seq<string>)
    requires a <= b && NoDuplicates(b) && forall v :: v in b ==> v in a
    ensures a == b
  {
    SameElementsSameMultiset(a, b);
    assert |a| == |multiset(a)| == |multiset(b)| == |b|;
  }

  lemma TidyEqual(a: Labels, b: Labels)
    requires Tidy(a) && Tidy(b) && forall lbl :: ValuesOf(a, lbl) == ValuesOf(b, lbl)
    ensures a == b
  {
    TidySameKeys(a, b);
    TidySameKeys(b, a);
    forall lbl | lbl in a.Keys ensures a[lbl] == b[lbl] {
      assert ValuesOf(a, lbl) == ValuesOf(b, lbl);
    }
  }

  /** A run that finds all nodes racked stores exactly the map it read. */
  lemma RackedRunStoresRead(spec: TopologySpec, run: Run)
    requires Complete(spec, run) && run.now.domain == "rack" && AllRacked(run.before)
    ensures run.after == run.before && run.now.labels == run.read
  {
    SettledIsFixpoint(run.before, run.after);
    var a, b := ValuesOf(run.read, RACK_TOPOLOGY_KEY), ValuesOf(run.now.labels, RACK_TOPOLOGY_KEY);
    forall v | v in b ensures v in a {
      assert SomeStoredRackKey(run.after, v);
    }
    PrefixOfSameElements(a, b);
    TidyEqual(run.now.labels, run.read);
  }

  /** After a complete run under the rack failure domain the next one patches nothing, keeps
      every assignment, and lists the same racks, each once; only their order may change,
      since the first run appends the racks it hands out to a sorted list. */
  lemma SecondRunKeepsRacks(spec: TopologySpec, a: Run, b: Run)
    requires Complete(spec, a) && Complete(spec, b) && Follows(a, b) && a.now.domain == "rack"
    ensures b.after == b.before && b.now.domain == "rack"
    ensures forall rack, name ::
              name in ValuesOf(a.states[|a.nodes|], rack) <==> name in ValuesOf(b.states[|b.nodes|], rack)
    ensures NoDuplicates(ValuesOf(a.now.labels, RACK_TOPOLOGY_KEY))
    ensures ValuesOf(b.now.labels, RACK_TOPOLOGY_KEY) == SortStrings(ValuesOf(a.now.labels, RACK_TOPOLOGY_KEY))
  {
    RackedRunStoresRead(spec, b);
    forall rack, name
      ensures name in ValuesOf(a.states[|a.nodes|], rack) <==> name in ValuesOf(b.states[|b.nodes|], rack)
    {
      assert name in ValuesOf(a.states[|a.nodes|], rack) <==> StoredInRack(a.after, name, rack);
      assert name in ValuesOf(b.states[|b.nodes|], rack) <==> StoredInRack(b.after, name, rack);
    }
    var first, second := ValuesOf(a.now.labels, RACK_TOPOLOGY_KEY), ValuesOf(b.now.labels, RACK_TOPOLOGY_KEY);
    forall v ensures v in first <==> v in second {
      assert v in first <==> SomeStoredRackKey(a.after, v);
      assert v in second <==> SomeStoredRackKey(b.after, v);
    }
    SameElementsSameMultiset(first, second);
    ReadIsSorted(b, RACK_TOPOLOGY_KEY);
    SortedUnique(SortStrings(first), second);
  }

  lemma ReadIsSorted(run: Run, key: string)
    requires ReadFrom(run.was.domain, run.was.key, run.nodes, run.read)
    ensures Sorted(ValuesOf(run.read, key))
  {
  }

  /** Of the topology labels of the nodes only the rack key stands for racks. */
  ghost predicate OneRackKey(stored: Stored)
  {
    forall name, lbl :: name in stored && lbl in stored[name] && IsTopologyLabel(lbl) && HasSubstring(lbl, "rack") ==>
                          lbl == RACK_TOPOLOGY_KEY
  }

  lemma ReadHasOneRackKey(run: Run)
    requires IsSnapshot(run.before, run.nodes) && OneRackKey(run.before)
    requires ReadFrom(run.was.domain, run.was.key, run.nodes, run.read)
    ensures forall lbl :: lbl in run.read && HasSubstring(lbl, "rack") ==> lbl == RACK_TOPOLOGY_KEY
  {
    var labels :| ListsTopology(labels, run.nodes) &&
        run.read == Tidied(run.was.domain, run.was.key, run.nodes, labels);
    forall lbl | lbl in run.read && HasSubstring(lbl, "rack") ensures lbl == RACK_TOPOLOGY_KEY {
      assert labels[lbl][0] in ValuesOf(labels, lbl);
      assert SomeNodeHas(run.nodes, lbl, labels[lbl][0]);
      var n :| n in run.nodes && lbl in n.labels;
      assert lbl in run.before[n.name];
    }
  }

  /** From the second run on nothing changes at all: the third run stores the topology map
      of the second, and with one rack key in use its whole status. */
  lemma ThirdRunChangesNothing(spec: TopologySpec, a: Run, b: Run, c: Run)
    requires Complete(spec, a) && Complete(spec, b) && Complete(spec, c)
    requires Follows(a, b) && Follows(b, c) && a.now.domain == "rack"
    ensures c.after == b.after && c.now.labels == b.now.labels
    ensures OneRackKey(b.before) ==> c.now == b.now
  {
    RackedRunStoresRead(spec, b);
    RackedRunStoresRead(spec, c);
    SnapshotsSameNodes(b.before, b.nodes, c.nodes);
    ASecondAnswerIsForRack(spec, a);
    ASecondAnswerIsForRack(spec, b);
    RackAnswerIsNotStable(a.read, a.now.key, a.now.values);
    RackAnswerIsNotStable(b.read, b.now.key, b.now.values);
    SameNodesSameRead("rack", b.was.key, c.was.key, b.nodes, c.nodes, b.read, c.read);
    if OneRackKey(b.before) {
      ReadHasOneRackKey(b);
      assert "rack" <= "rack"[0..];
    }
  }

  lemma ASecondAnswerIsForRack(spec: TopologySpec, run: Run)
    requires Complete(spec, run) && run.now.domain == "rack"
    ensures Answers(run.read, "rack", run.now.key, run.now.values)
  {
    assert "osd"[0] != "rack"[0];
  }

  // ----- the failure-domain values

  lemma RackAnswer(labels: Labels, key: string, values: seq<string>, stored: Stored)
    requires Answers(labels, "rack", key, values) && ListsRackKey(labels, stored)
    requires forall lbl :: lbl in labels && HasSubstring(lbl, "rack") ==> lbl == RACK_TOPOLOGY_KEY
    ensures forall v :: v in values <==> SomeStoredRackKey(stored, v)
  {
    RackKeyLabels();
    forall v ensures v in values <==> SomeStoredRackKey(stored, v) {
      assert v in ValuesOf(labels, RACK_TOPOLOGY_KEY) <==> SomeStoredRackKey(stored, v);
      if RACK_TOPOLOGY_KEY in labels {
        assert key == RACK_TOPOLOGY_KEY;
      }
    }
  }

  /** The failure-domain values of a run are the racks the nodes had before it. */
  lemma ValuesAreTheRacksBefore(spec: TopologySpec, run: Run)
    requires Complete(spec, run) && run.now.domain == "rack" && OneRackKey(run.before)
    ensures forall v :: v in run.now.values <==> SomeStoredRackKey(run.before, v)
  {
    ASecondAnswerIsForRack(spec, run);
    ReadHasOneRackKey(run);
    RackAnswer(run.read, run.now.key, run.now.values, run.before);
  }

  /** The failure-domain values are the racks the nodes have after the run. */
  ghost predicate ValuesComplete(run: Run)
  {
    forall v :: v in run.now.values <==> SomeStoredRackKey(run.after, v)
  }

  /** The rack key is the only label that stands for a rack. */
  ghost predicate OneRackLabel(stored: Stored)
  {
    forall name, lbl :: name in stored && lbl in stored[name] && IsRackLabel(lbl) ==> lbl == RACK_TOPOLOGY_KEY
  }

  ghost function StoredRacks(stored: Stored): set<string>
  {
    set name | name in stored && RACK_TOPOLOGY_KEY in stored[name] :: stored[name][RACK_TOPOLOGY_KEY]
  }

  ghost predicate ZoneRacked(stored: Stored, z: string)
  {
    exists name :: name in stored && Racked(Node(name, stored[name])) && StoredHasZone(stored, name, z)
  }

  /** Every node without a rack will find one among those there are: enough racks, and a
      rack for its zone if it has one. */
  ghost predicate RacksSuffice(stored: Stored, minNodes: int)
  {
    AllRacked(stored) ||
    (|StoredRacks(stored)| >= minNodes &&
     forall name, z :: name in stored && !Racked(Node(name, stored[name])) && StoredHasZone(stored, name, z) ==>
                         ZoneRacked(stored, z))
  }

  lemma RackKeysAreStoredRacks(stored: Stored, racks: Racks)
    requires Mirrors(racks, stored) && NoEmptyRack(racks) && OneRackLabel(stored)
    ensures racks.Keys == StoredRacks(stored)
    ensures forall v :: v in racks.Keys <==> SomeStoredRackKey(stored, v)
  {
    RackKeyLabels();
    forall v ensures v in racks.Keys <==> SomeStoredRackKey(stored, v) {
      if v in racks {
        assert racks[v][0] in ValuesOf(racks, v);
        assert StoredInRack(stored, racks[v][0], v);
      }
      if SomeStoredRackKey(stored, v) {
        var name :| name in stored && RACK_TOPOLOGY_KEY in stored[name] && stored[name][RACK_TOPOLOGY_KEY] == v;
        assert StoredInRack(stored, name, v);
        assert name in ValuesOf(racks, v);
      }
    }
    forall v ensures v in StoredRacks(stored) <==> SomeStoredRackKey(stored, v) {
    }
  }

  lemma PatchKeepsOneRackLabel(before: Stored, after: Stored)
    requires Patched(before, after) && OneRackLabel(before)
    ensures OneRackLabel(after)
  {
    forall name, lbl | name in after && lbl in after[name] && IsRackLabel(lbl) ensures lbl == RACK_TOPOLOGY_KEY {
      assert after[name] == before[name] || GotRack(name, before[name], after[name]);
    }
  }

  lemma ZoneHeldIffRacked(stored: Stored, nodes: seq<Node>, racks: Racks, z: string)
    requires IsSnapshot(stored, nodes) && Mirrors(racks, stored)
    ensures ZoneHeld(nodes, racks, z) <==> ZoneRacked(stored, z)
  {
    if ZoneHeld(nodes, racks, z) {
      var rack :| rack in racks && ZoneInRack(nodes, racks[rack], z);
      var i :| 0 <= i < |racks[rack]| && NameHasZone(nodes, racks[rack][i], z);
      var name := racks[rack][i];
      SnapshotZones(stored, nodes, name, z);
      assert HasRack(racks, name);
      RackedIffListed(racks, stored, name);
    }
    if ZoneRacked(stored, z) {
      var name :| name in stored && Racked(Node(name, stored[name])) && StoredHasZone(stored, name, z);
      RackedIffListed(racks, stored, name);
      var rack :| rack in racks && name in racks[rack];
      var i :| 0 <= i < |racks[rack]| && racks[rack][i] == name;
      SnapshotZones(stored, nodes, name, z);
      assert ZoneInRack(nodes, racks[rack], z);
    }
  }

  lemma NodeFitsIff(stored: Stored, nodes: seq<Node>, racks: Racks, minNodes: int, node: Node)
    requires IsSnapshot(stored, nodes) && Mirrors(racks, stored) && racks.Keys == StoredRacks(stored)
    requires node in nodes
    ensures HasRack(racks, node.name) <==> Racked(node)
    ensures Fits(nodes, node, minNodes, racks) <==>
            |StoredRacks(stored)| >= minNodes && forall z :: HasZone(node, z) ==> ZoneRacked(stored, z)
  {
    assert node == Node(node.name, stored[node.name]);
    assert |racks| == |racks.Keys|;
    RackedIffListed(racks, stored, node.name);
    forall z { ZoneHeldIffRacked(stored, nodes, racks, z); }
  }

  /** The racks suffice exactly when every node without a rack finds one among them. */
  lemma SufficeByNode(stored: Stored, nodes: seq<Node>, minNodes: int)
    requires IsSnapshot(stored, nodes)
    ensures RacksSuffice(stored, minNodes) <==>
            forall node :: node in nodes && !Racked(node) ==>
                             |StoredRacks(stored)| >= minNodes && forall z :: HasZone(node, z) ==> ZoneRacked(stored, z)
  {
    forall node | node in nodes ensures node == Node(node.name, stored[node.name]) {
    }
    forall name, z | StoredHasZone(stored, name, z) ensures HasZone(Node(name, stored[name]), z) {
    }
    forall node, z | node in nodes && HasZone(node, z) ensures StoredHasZone(stored, node.name, z) {
    }
  }

  /** All unracked nodes fit into the racks exactly when the racks suffice. */
  lemma SufficeIffFit(stored: Stored, nodes: seq<Node>, racks: Racks, minNodes: int)
    requires IsSnapshot(stored, nodes) && Mirrors(racks, stored) && racks.Keys == StoredRacks(stored)
    ensures RacksSuffice(stored, minNodes) <==>
            AllFit(nodes, minNodes, racks, |nodes|)
  {
    SufficeByNode(stored, nodes, minNodes);
    forall node | node in nodes { NodeFitsIff(stored, nodes, racks, minNodes, node); }
  }

  lemma ValuesCompleteIffSameRacks(run: Run, first: Racks, last: Racks)
    requires forall v :: v in run.now.values <==> SomeStoredRackKey(run.before, v)
    requires forall v :: v in first.Keys <==> SomeStoredRackKey(run.before, v)
    requires forall v :: v in last.Keys <==> SomeStoredRackKey(run.after, v)
    ensures ValuesComplete(run) <==> first.Keys == last.Keys
  {
    if first.Keys == last.Keys {
      forall v ensures v in run.now.values <==> SomeStoredRackKey(run.after, v) {
        assert v in first.Keys <==> v in last.Keys;
      }
    }
    if ValuesComplete(run) {
      forall v ensures v in first.Keys <==> v in last.Keys {
        assert v in run.now.values <==> SomeStoredRackKey(run.after, v);
      }
    }
  }

  lemma RunInventsNoRackIff(run: Run)
    requires IsSnapshot(run.before, run.nodes) && StoredOneZone(run.before) && run.minNodes >= 1
    requires |run.states| == |run.nodes| + 1 && IsRun(run.nodes, run.minNodes, run.states)
    requires NoEmptyRack(run.states[0]) && Mirrors(run.states[0], run.before)
    requires run.states[0].Keys == StoredRacks(run.before)
    ensures NoEmptyRack(run.states[|run.nodes|])
    ensures run.states[|run.nodes|].Keys == run.states[0].Keys <==> RacksSuffice(run.before, run.minNodes)
  {
    RunIsOpen(run.nodes, run.minNodes, run.states);
    SnapshotOneZone(run.before, run.nodes);
    RunOpensNoRackIff(run.nodes, run.minNodes, run.states, |run.nodes|);
    SufficeIffFit(run.before, run.nodes, run.states[0], run.minNodes);
  }

  lemma OneRackLabelOneRackKey(stored: Stored)
    requires OneRackLabel(stored)
    ensures OneRackKey(stored)
  {
    forall name, lbl | name in stored && lbl in stored[name] && IsTopologyLabel(lbl) && HasSubstring(lbl, "rack")
      ensures lbl == RACK_TOPOLOGY_KEY
    {
      assert IsRackLabel(lbl);
    }
  }

  /** The failure domain is set before racks are handed out, so its values lag behind. With
      one rack label and one zone per node they are complete after a run if and only if the
      run had no rack to invent: all nodes were racked, or there were enough racks and each
      unracked node has no zone or one that already had a rack. */
  lemma ValuesCompleteIffRacksSuffice(spec: TopologySpec, run: Run)
    requires Complete(spec, run) && run.now.domain == "rack"
    requires OneRackLabel(run.before) && StoredOneZone(run.before)
    ensures ValuesComplete(run) <==> RacksSuffice(run.before, run.minNodes)
  {
    var first, last := run.states[0], run.states[|run.nodes|];
    OneRackLabelOneRackKey(run.before);
    ValuesAreTheRacksBefore(spec, run);
    PatchKeepsOneRackLabel(run.before, run.after);
    RackKeysAreStoredRacks(run.before, first);
    RunInventsNoRackIff(run);
    RackKeysAreStoredRacks(run.after, last);
    ValuesCompleteIffSameRacks(run, first, last);
  }

  /** One run later they are complete. */
  lemma SecondRunValuesComplete(spec: TopologySpec, a: Run, b: Run)
    requires Complete(spec, a) && Complete(spec, b) && Follows(a, b) && a.now.domain == "rack"
    requires OneRackKey(b.before)
    ensures ValuesComplete(b)
  {
    RackedRunStoresRead(spec, b);
    ValuesAreTheRacksBefore(spec, b);
  }

  // ----- a cluster on which they do lag

  /** The first `k` rack names. */
  ghost function FirstRacks(k: nat): set<string>
  {
    if k == 0 then {} else FirstRacks(k - 1) + {RackName(k - 1)}
  }

  lemma {:induction false} InFirstRacks(k: nat, j: nat)
    ensures RackName(j) in FirstRacks(k) <==> j < k
  {
    if k > 0 {
      InFirstRacks(k - 1, j);
      if RackName(j) == RackName(k - 1) { RackNameInjective(j, k - 1); }
    }
  }

  lemma FirstFreeIs(racks: Racks, k: nat)
    requires racks.Keys == FirstRacks(k)
    ensures FirstFree(racks, 0) == k
  {
    var free := FirstFree(racks, 0);
    InFirstRacks(k, free);
    InFirstRacks(k, k);
    assert RackName(k) !in racks;
  }

  lemma WidenedByFirst(nodes: seq<Node>, minRacks: int, racks: Racks, k: nat)
    requires |racks| < minRacks && racks.Keys == FirstRacks(k)
    ensures RackName(k) !in racks
    ensures var widened := racks[RackName(k) := []];
            Candidates(nodes, Widen(racks, minRacks), "") == (widened, widened.Keys)
  {
    FirstFreeIs(racks, k);
  }

  lemma EmptyIsLeast(racks: Racks, rack: string)
    requires NoEmptyRack(racks) && rack !in racks
    ensures var widened := racks[rack := []];
            IsLeast(widened, widened.Keys, rack) && LeastRack(widened, widened.Keys) == rack
  {
    var widened := racks[rack := []];
    forall other | other in widened.Keys && other != rack ensures Before(widened, rack, other) {
      assert racks[other] != [];
    }
    assert rack in widened.Keys;
    LeastUnique(widened, widened.Keys, LeastRack(widened, widened.Keys), rack);
  }

  /** A node without a zone goes into a rack of its own below the minimum number of racks. */
  lemma PlacedBelowMinimum(nodes: seq<Node>, name: string, minRacks: int, racks: Racks, k: nat)
    requires NoEmptyRack(racks) && 0 <= |racks| < minRacks && racks.Keys == FirstRacks(k)
    ensures AddToRack(nodes, name, "", minRacks, racks) == racks[RackName(k) := [name]]
  {
    WidenedByFirst(nodes, minRacks, racks, k);
    EmptyIsLeast(racks, RackName(k));
    assert Place(nodes, "", minRacks, racks) == (racks[RackName(k) := []], RackName(k));
    assert [] + [name] == [name];
  }

  /** Labels that say nothing about the place of a node. */
  ghost predicate Plain(labels: map<string, string>)
  {
    labels != map[] && forall lbl :: lbl in labels ==> !IsTopologyLabel(lbl) && !IsRackLabel(lbl)
  }

  lemma PlainNode(name: string, labels: map<string, string>)
    requires Plain(labels)
    ensures !Racked(Node(name, labels)) && IsTargetZone(Node(name, labels), "")
    ensures forall rack :: !InRack(Node(name, labels), rack)
    ensures RACK_TOPOLOGY_KEY !in labels
  {
    RackKeyLabels();
  }

  /** Racks, labels and the list of racks after `k` plain nodes were placed below the minimum
      number of racks. */
  ghost predicate Growing(racks: Racks, stored: Stored, labels: Labels, k: nat)
  {
    && NoEmptyRack(racks) && racks.Keys == FirstRacks(k) && |racks| == k
    && Mirrors(racks, stored) && ListsRackKey(labels, stored)
    && Tidy(labels) && labels.Keys <= {RACK_TOPOLOGY_KEY}
  }

  function Listing(labels: Labels, rack: string): Labels
  {
    var values := ValuesOf(labels, RACK_TOPOLOGY_KEY);
    labels[RACK_TOPOLOGY_KEY := if rack in values then values else values + [rack]]
  }

  lemma GrowRacks(racks: Racks, k: nat, name: string)
    requires NoEmptyRack(racks) && racks.Keys == FirstRacks(k) && |racks| == k
    ensures var racks' := racks[RackName(k) := [name]];
            && NoEmptyRack(racks') && racks'.Keys == FirstRacks(k + 1) && |racks'| == k + 1
            && forall r :: ValuesOf(racks', r) == ValuesOf(racks, r) + if r == RackName(k) then [name] else []
  {
    InFirstRacks(k, k);
    assert RackName(k) !in racks;
    var racks' := racks[RackName(k) := [name]];
    assert racks'.Keys == racks.Keys + {RackName(k)};
    assert |racks'| == |racks'.Keys|;
  }

  lemma GrowListing(labels: Labels, rack: string)
    requires Tidy(labels) && labels.Keys <= {RACK_TOPOLOGY_KEY}
    ensures Tidy(Listing(labels, rack)) && Listing(labels, rack).Keys <= {RACK_TOPOLOGY_KEY}
    ensures forall v :: v in ValuesOf(Listing(labels, rack), RACK_TOPOLOGY_KEY) <==>
                        v in ValuesOf(labels, RACK_TOPOLOGY_KEY) || v == rack
  {
    var after := Listing(labels, rack);
    assert after.Keys == {RACK_TOPOLOGY_KEY};
    assert NoDuplicates(after[RACK_TOPOLOGY_KEY]);
  }

  lemma GrowOnce(racks: Racks, stored: Stored, labels: Labels, k: nat, name: string)
    requires Growing(racks, stored, labels, k) && name in stored && Plain(stored[name])
    ensures Growing(racks[RackName(k) := [name]], stored[name := Labelled(stored[name], RackName(k))],
                    Listing(labels, RackName(k)), k + 1)
  {
    var rack := RackName(k);
    GrowRacks(racks, k, name);
    GrowListing(labels, rack);
    PlainNode(name, stored[name]);
    PlacedMirrors(racks, racks[rack := [name]], stored, name, rack);
    PatchListsRackKey(labels, Listing(labels, rack), stored, name, rack);
  }

  lemma GrowStep(nodes: seq<Node>, racks: Racks, stored: Stored, labels: Labels, k: nat, minRacks: int, name: string)
    requires Growing(racks, stored, labels, k) && k < minRacks && name in stored && Plain(stored[name])
    ensures Step(nodes, Node(name, stored[name]), minRacks, racks, racks[RackName(k) := [name]])
  {
    PlacedBelowMinimum(nodes, name, minRacks, racks, k);
    RackedIffListed(racks, stored, name);
    PlainNode(name, stored[name]);
  }

  /** No node has a topology label or a rack label, but each has some label. */
  ghost predicate AllPlain(stored: Stored)
  {
    forall name :: name in stored ==> Plain(stored[name])
  }

  ghost predicate HasOwnRack(node: Node, stored: Stored, n: nat, j: nat)
  {
    Plain(node.labels) && node.name in stored &&
    stored[node.name] == if j < n then Labelled(node.labels, RackName(j)) else node.labels
  }

  /** The first `n` nodes have the first `n` racks, the others are as they were. */
  ghost predicate RackedInOrder(nodes: seq<Node>, stored: Stored, n: nat)
  {
    forall j :: 0 <= j < |nodes| ==> HasOwnRack(nodes[j], stored, n, j)
  }

  lemma NextInOrder(nodes: seq<Node>, stored: Stored, n: nat)
    requires UniqueNames(nodes) && n < |nodes| && RackedInOrder(nodes, stored, n)
    ensures nodes[n].name in stored && stored[nodes[n].name] == nodes[n].labels && Plain(nodes[n].labels)
    ensures RackedInOrder(nodes, stored[nodes[n].name := Labelled(nodes[n].labels, RackName(n))], n + 1)
  {
    var next := stored[nodes[n].name := Labelled(nodes[n].labels, RackName(n))];
    assert HasOwnRack(nodes[n], stored, n, n);
    forall j | 0 <= j < |nodes| ensures HasOwnRack(nodes[j], next, n + 1, j) {
      assert HasOwnRack(nodes[j], stored, n, j);
    }
  }

  /** The first `n` turns of the loop over plain nodes. */
  lemma {:induction false} PlainRun(nodes: seq<Node>, start: Stored, minRacks: int, n: nat)
    returns (states: seq<Racks>, stored: Stored, labels: Labels)
    requires UniqueNames(nodes) && RackedInOrder(nodes, start, 0) && AllPlain(start)
    requires n <= |nodes| <= minRacks && 1 <= minRacks
    ensures IsRun(nodes, minRacks, states) && |states| == n + 1 && states[0] == map[]
    ensures Growing(states[n], stored, labels, n)
    ensures stored.Keys == start.Keys && RackedInOrder(nodes, stored, n)
  {
    if n == 0 {
      states, stored, labels := [map[]], start, map[];
      NoRacksYet(start);
    } else {
      var before, was, listed := PlainRun(nodes, start, minRacks, n - 1);
      states, stored, labels := PlainTurn(nodes, minRacks, n - 1, before, was, listed);
    }
  }

  lemma PlainTurn(nodes: seq<Node>, minRacks: int, n: nat, before: seq<Racks>, was: Stored, listed: Labels)
    returns (states: seq<Racks>, stored: Stored, labels: Labels)
    requires UniqueNames(nodes) && n < |nodes| <= minRacks && RackedInOrder(nodes, was, n)
    requires IsRun(nodes, minRacks, before) && |before| == n + 1 && Growing(before[n], was, listed, n)
    ensures IsRun(nodes, minRacks, states) && |states| == n + 2 && states[0] == before[0]
    ensures Growing(states[n + 1], stored, labels, n + 1)
    ensures stored.Keys == was.Keys && RackedInOrder(nodes, stored, n + 1)
  {
    var name, racks := nodes[n].name, before[n];
    NextInOrder(nodes, was, n);
    GrowStep(nodes, racks, was, listed, n, minRacks, name);
    GrowOnce(racks, was, listed, n, name);
    var next := racks[RackName(n) := [name]];
    RunAppend(nodes, minRacks, before, next);
    states, labels := before + [next], Listing(listed, RackName(n));
    stored := was[name := Labelled(nodes[n].labels, RackName(n))];
    assert states[n + 1] == next && states[0] == before[0];
  }

  lemma NoRacksYet(stored: Stored)
    requires AllPlain(stored)
    ensures Growing(map[], stored, map[], 0)
  {
    forall name | name in stored { PlainNode(name, stored[name]); }
  }

  lemma PlainNodesGotRacks(before: Stored, after: Stored, nodes: seq<Node>)
    requires IsSnapshot(before, nodes) && AllPlain(before) && after.Keys == before.Keys
    requires RackedInOrder(nodes, after, |nodes|)
    ensures Patched(before, after) && AllRacked(after)
  {
    forall name | name in after ensures Racked(Node(name, after[name])) && GotRack(name, before[name], after[name]) {
      var j :| 0 <= j < |nodes| && nodes[j] == Node(name, before[name]);
      assert HasOwnRack(nodes[j], after, |nodes|, j);
      assert after[name] == Labelled(before[name], RackName(j));
      PlainNode(name, before[name]);
      LabelledIsRacked(name, before[name], RackName(j));
    }
  }

  lemma PlainReading(stored: Stored, nodes: seq<Node>)
    requires IsSnapshot(stored, nodes) && AllPlain(stored)
    ensures ReadFrom("", "", nodes, map[]) && ListsRackKey(map[], stored)
  {
    forall lbl, v ensures !(IsTopologyLabel(lbl) && SomeNodeHas(nodes, lbl, v)) {
      if SomeNodeHas(nodes, lbl, v) {
        var n :| n in nodes && lbl in n.labels;
        assert Plain(stored[n.name]);
      }
    }
    assert ListsTopology(map[], nodes);
    assert Tidied("", "", nodes, map[]) == map[];
    NoRacksYet(stored);
  }

  /** On any cluster with as many nodes as the minimum, none of them with a topology label or
      a rack label, there is a complete run that gives every node a rack and stores no
      failure-domain values. */
  lemma PlainClusterLags(spec: TopologySpec, stored: Stored, nodes: seq<Node>) returns (run: Run)
    requires !spec.singleNode && !spec.flexibleScaling && IsMinimum(spec, |nodes|)
    requires IsSnapshot(stored, nodes) && AllPlain(stored)
    ensures Complete(spec, run) && run.before == stored && run.was == TopologyView("", "", [], map[])
    ensures run.now.domain == "rack" && run.now.values == [] && AllRacked(run.after) && !ValuesComplete(run)
  {
    forall j | 0 <= j < |nodes| ensures HasOwnRack(nodes[j], stored, 0, j) {
      assert nodes[j] in nodes;
    }
    var states, after, labels := PlainRun(nodes, stored, |nodes|, |nodes|);
    PlainNodesGotRacks(stored, after, nodes);
    PlainAssigned(stored, nodes, states, after, labels);
    run := PlainComplete(spec, stored, nodes, states, after, labels);
    assert HasOwnRack(nodes[0], after, |nodes|, 0);
    assert SomeStoredRackKey(after, RackName(0));
  }

  lemma NothingReadMeansRack(spec: TopologySpec)
    requires !spec.singleNode && !spec.flexibleScaling
    ensures ChosenDomain(spec, map[]) == "rack" && Answers(map[], "rack", "rack", [])
  {
  }

  lemma PlainAssigned(stored: Stored, nodes: seq<Node>, states: seq<Racks>, after: Stored, labels: Labels)
    requires IsSnapshot(stored, nodes) && AllPlain(stored) && Patched(stored, after) && AllRacked(after)
    requires |nodes| >= 1 && IsRun(nodes, |nodes|, states) && |states| == |nodes| + 1 && states[0] == map[]
    requires Growing(states[|nodes|], after, labels, |nodes|)
    ensures RacksAssigned(stored, |nodes|, nodes, map[], states, after, labels)
  {
    NoRacksYet(stored);
    forall n | n in nodes ensures n.labels != map[] {
      assert Plain(stored[n.name]);
    }
  }

  lemma PlainComplete(spec: TopologySpec, stored: Stored, nodes: seq<Node>, states: seq<Racks>, after: Stored,
                      labels: Labels)
    returns (run: Run)
    requires !spec.singleNode && !spec.flexibleScaling && IsMinimum(spec, |nodes|)
    requires IsSnapshot(stored, nodes) && AllPlain(stored)
    requires RacksAssigned(stored, |nodes|, nodes, map[], states, after, labels)
    ensures Complete(spec, run) && run.before == stored && run.after == after
    ensures run.was == TopologyView("", "", [], map[]) && run.now == TopologyView("rack", "rack", [], labels)
  {
    PlainReading(stored, nodes);
    NothingReadMeansRack(spec);
    run := Run(stored, TopologyView("", "", [], map[]), |nodes|, nodes, map[], states, after,
               TopologyView("rack", "rack", [], labels));
  }

  /** The label by which the operator selects its nodes. */
  const NODE_AFFINITY_KEY := "cluster.ocs.openshift.io/openshift-storage"

  /** A label that lacks a character of every topology key says nothing about the place. */
  lemma LacksKeysIsPlain(lbl: string, c: char)
    requires c !in lbl && c in "rack" && forall key :: key in VALID_TOPOLOGY_LABEL_KEYS ==> c in key
    ensures Plain(map[lbl := ""])
  {
    forall key | c in key ensures !HasSubstring(lbl, key) {
      var k :| 0 <= k < |key| && key[k] == c;
      LacksCharLacksSubstring(lbl, key, k);
    }
    assert lbl in map[lbl := ""];
  }

  lemma KeysHaveK()
    ensures 'k' in "rack" && forall key :: key in VALID_TOPOLOGY_LABEL_KEYS ==> 'k' in key
  {
    assert "rack"[3] == 'k';
    assert LABEL_ZONE_REGION_STABLE[9] == 'k' && LABEL_ZONE_FAILURE_DOMAIN_STABLE[9] == 'k';
    assert LABEL_ZONE_REGION[20] == 'k' && LABEL_ZONE_FAILURE_DOMAIN[20] == 'k';
    assert LABEL_ZONE_REGION_WITHOUT_BETA[15] == 'k' && LABEL_ZONE_FAILURE_DOMAIN_WITHOUT_BETA[15] == 'k';
    assert LABEL_HOSTNAME[0] == 'k' && LABEL_ROOK_PREFIX[12] == 'k';
  }

  lemma NodeAffinityIsPlain()
    ensures Plain(map[NODE_AFFINITY_KEY := ""])
  {
    KeysHaveK();
    assert 'k' !in NODE_AFFINITY_KEY;
    LacksKeysIsPlain(NODE_AFFINITY_KEY, 'k');
  }

  /** For instance on three nodes with just the label that selects them. */
  lemma FirstRunLags() returns (spec: TopologySpec, run: Run)
    ensures var labels := map[NODE_AFFINITY_KEY := ""];
            Complete(spec, run) && run.before == map["a" := labels, "b" := labels, "c" := labels]
    ensures run.now.domain == "rack" && run.now.values == [] && AllRacked(run.after) && !ValuesComplete(run)
  {
    spec := TopologySpec(false, false, false, []);
    NodeAffinityIsPlain();
    var labels := map[NODE_AFFINITY_KEY := ""];
    run := ThreeNodesLag(spec, labels);
  }

  lemma ThreeNodesLag(spec: TopologySpec, labels: map<string, string>) returns (run: Run)
    requires Plain(labels) && spec == TopologySpec(false, false, false, [])
    ensures Complete(spec, run) && run.before == map["a" := labels, "b" := labels, "c" := labels]
    ensures run.now.domain == "rack" && run.now.values == [] && AllRacked(run.after) && !ValuesComplete(run)
  {
    var nodes := [Node("a", labels), Node("b", labels), Node("c", labels)];
    assert "a"[0] != "b"[0] && "a"[0] != "c"[0] && "b"[0] != "c"[0];
    var stored: Stored := map["a" := labels, "b" := labels, "c" := labels];
    assert nodes[0] in nodes && nodes[1] in nodes && nodes[2] in nodes;
    run := PlainClusterLags(spec, stored, nodes);
  }

  // ----- nodes without labels

  /** With a node without labels among them no run gets through under the rack failure
      domain, whatever the spec. */
  lemma UnlabelledNodePanics() returns (stored: Stored)
    ensures stored == map["a" := map[NODE_AFFINITY_KEY := ""], "b" := map[NODE_AFFINITY_KEY := ""], "c" := map[]]
    ensures forall spec: TopologySpec, run: Run ::
              run.before == stored && run.now.domain == "rack" ==> !Complete(spec, run)
  {
    assert "a"[0] != "c"[0] && "b"[0] != "c"[0];
    stored := map["a" := map[NODE_AFFINITY_KEY := ""], "b" := map[NODE_AFFINITY_KEY := ""], "c" := map[]];
    assert !StoredLabelled(stored) by { assert stored["c"] == map[]; }
    forall spec: TopologySpec, run: Run | run.before == stored && run.now.domain == "rack"
      ensures !Complete(spec, run)
    {
      if IsSnapshot(run.before, run.nodes) { SnapshotLabelled(run.before, run.nodes); }
    }
  }

  // ----- redundant labels over runs

  lemma TidiedValues(labels: Labels, dropped: set<string>, lbl: string)
    ensures ValuesOf(SortedLabels(labels - dropped), lbl) ==
            if lbl in dropped then [] else SortStrings(ValuesOf(labels, lbl))
  {
  }

  /** Under a decided failure domain, nodes that agree on the three zone keys lose the two
      old keys, and the list kept under the stable key is, value for value, the sorted list
      that stood under each of them. */
  lemma MigrationKeepsValues(fd: string, fdKey: string, nodes: seq<Node>, labels: Labels, oldKey: string)
    requires ListsTopology(labels, nodes) && fd != "" && Identical(nodes, ZONE_KEYS)
    requires oldKey == LABEL_ZONE_FAILURE_DOMAIN || oldKey == LABEL_ZONE_FAILURE_DOMAIN_WITHOUT_BETA
    ensures var after := Tidied(fd, fdKey, nodes, labels);
            oldKey !in after && ValuesOf(after,
                                         LABEL_ZONE_FAILURE_DOMAIN_STABLE) == SortStrings(ValuesOf(labels, oldKey))
  {
    FamiliesAreTopologyLabels();
    AgreedKeysListTheSame(nodes, labels, ZONE_KEYS, if oldKey == LABEL_ZONE_FAILURE_DOMAIN then 1 else 2);
    forall key | key in REGION_KEYS ensures key != LABEL_ZONE_FAILURE_DOMAIN_STABLE {
      assert |key| != |LABEL_ZONE_FAILURE_DOMAIN_STABLE|;
    }
    assert LABEL_ZONE_FAILURE_DOMAIN_STABLE !in Dropped(fd, fdKey, nodes, labels);
    assert oldKey in Dropped(fd, fdKey, nodes, labels);
  }

  /** A complete run that starts with a failure domain, on nodes that agree on the three
      zone keys: the stored map no longer has the old keys, and under the stable key it
      lists, sorted and each once, exactly what the nodes say under each old key. */
  lemma RunMigrates(spec: TopologySpec, run: Run, oldKey: string)
    requires Complete(spec, run) && run.was.domain != "" && Identical(run.nodes, ZONE_KEYS)
    requires oldKey == LABEL_ZONE_FAILURE_DOMAIN || oldKey == LABEL_ZONE_FAILURE_DOMAIN_WITHOUT_BETA
    ensures oldKey !in run.now.labels
    ensures var values := ValuesOf(run.now.labels, LABEL_ZONE_FAILURE_DOMAIN_STABLE);
            Sorted(values) && NoDuplicates(values) && forall v :: v in values <==> SomeNodeHas(run.nodes, oldKey, v)
  {
    var labels :| ListsTopology(labels, run.nodes) &&
        run.read == Tidied(run.was.domain, run.was.key, run.nodes, labels);
    MigrationKeepsValues(run.was.domain, run.was.key, run.nodes, labels, oldKey);
    OldKeyLists(run.nodes, labels, oldKey);
    OtherLabelsAsRead(spec, run, oldKey);
    OtherLabelsAsRead(spec, run, LABEL_ZONE_FAILURE_DOMAIN_STABLE);
  }

  lemma OldKeyLists(nodes: seq<Node>, labels: Labels, oldKey: string)
    requires ListsTopology(labels, nodes) && oldKey in ZONE_KEYS
    ensures var values := SortStrings(ValuesOf(labels, oldKey));
            Sorted(values) && NoDuplicates(values) && forall v :: v in values <==> SomeNodeHas(nodes, oldKey, v)
  {
    FamiliesAreTopologyLabels();
    SortKeepsElements(ValuesOf(labels, oldKey));
    SortKeepsNoDuplicates(ValuesOf(labels, oldKey));
  }

  lemma OtherLabelsAsRead(spec: TopologySpec, run: Run, key: string)
    requires Complete(spec, run) && key in ZONE_KEYS
    ensures ValuesOf(run.now.labels, key) == ValuesOf(run.read, key)
    ensures key in run.now.labels <==> key in run.read
  {
    ZoneKeyIsNoRackKey(key);
    assert key in run.now.labels ==> ValuesOf(run.now.labels, key) != [] || run.now.labels == run.read;
    assert key in run.read ==> ValuesOf(run.read, key) != [];
  }

  lemma ZoneKeyIsNoRackKey(key: string)
    requires key == LABEL_ZONE_FAILURE_DOMAIN_STABLE || key in ZONE_KEYS || key in REGION_KEYS
    ensures key != RACK_TOPOLOGY_KEY
  {
    assert |key| != |RACK_TOPOLOGY_KEY|;
  }

  lemma PatchKeepsOtherLabels(before: Stored, after: Stored, na: seq<Node>, nb: seq<Node>, lbl: string, v: string)
    requires IsSnapshot(before, na) && IsSnapshot(after, nb) && Patched(before, after) && lbl != RACK_TOPOLOGY_KEY
    ensures SomeNodeHas(na, lbl, v) <==> SomeNodeHas(nb, lbl, v)
  {
    if SomeNodeHas(na, lbl, v) {
      var n :| n in na && lbl in n.labels && n.labels[lbl] == v;
      assert Node(n.name, after[n.name]) in nb;
    }
    if SomeNodeHas(nb, lbl, v) {
      var n :| n in nb && lbl in n.labels && n.labels[lbl] == v;
      assert Node(n.name, before[n.name]) in na;
    }
  }

  lemma PatchKeepsAgreement(before: Stored, after: Stored, na: seq<Node>, nb: seq<Node>, keys: seq<string>)
    requires IsSnapshot(before, na) && IsSnapshot(after, nb) && Patched(before, after) && RACK_TOPOLOGY_KEY !in keys
    ensures Identical(na, keys) <==> Identical(nb, keys)
  {
    forall name | name in before
      ensures Agrees(Node(name, before[name]), keys) <==> Agrees(Node(name, after[name]), keys)
    {
      forall j | 0 <= j < |keys| ensures keys[j] != RACK_TOPOLOGY_KEY {
        assert keys[j] in keys;
      }
    }
    if Identical(na, keys) {
      forall n | n in nb ensures Agrees(n, keys) { assert Node(n.name, before[n.name]) in na; }
    }
    if Identical(nb, keys) {
      forall n | n in na ensures Agrees(n, keys) { assert Node(n.name, after[n.name]) in nb; }
    }
  }

  lemma SameListsIffSameKeys(labels: Labels, a: set<string>, b: set<string>)
    requires Tidy(labels) && RACK_TOPOLOGY_KEY !in a && RACK_TOPOLOGY_KEY !in b
    ensures labels - a == labels - b <==>
            forall lbl :: lbl != RACK_TOPOLOGY_KEY ==>
                            ValuesOf(SortedLabels(labels - a), lbl) == ValuesOf(SortedLabels(labels - b), lbl)
  {
    if forall lbl :: lbl != RACK_TOPOLOGY_KEY ==>
                       ValuesOf(SortedLabels(labels - a), lbl) == ValuesOf(SortedLabels(labels - b), lbl) {
      forall lbl | lbl in labels ensures lbl in a <==> lbl in b {
        TidiedValues(labels, a, lbl);
        TidiedValues(labels, b, lbl);
        SortKeepsElements(labels[lbl]);
        assert labels[lbl][0] in SortStrings(labels[lbl]);
      }
      assert labels - a == labels - b;
    }
  }

  ghost predicate InUse(nodes: seq<Node>, key: string)
  {
    exists v :: SomeNodeHas(nodes, key, v)
  }

  ghost predicate SameButRacks(a: Labels, b: Labels)
  {
    forall lbl :: lbl != RACK_TOPOLOGY_KEY ==> ValuesOf(a, lbl) == ValuesOf(b, lbl)
  }

  /** The nodes have an old key of the family only beside its stable one. */
  ghost predicate OldBesideStable(nodes: seq<Node>, keys: seq<string>)
    requires |keys| == 3
  {
    InUse(nodes, keys[1]) || InUse(nodes, keys[2]) ==> InUse(nodes, keys[0])
  }

  /** The run that chooses the failure domain and the one after it store the same lists, but
      for the racks, if and only if: with one of the stable keys as failure-domain key, no old
      key is in use without the stable key of its family; with any other key, the nodes agree
      on every family whose stable key is in use. */
  lemma NextRunKeepsLabelsIff(spec: TopologySpec, a: Run, b: Run)
    requires Complete(spec, a) && Complete(spec, b) && Follows(a, b) && a.was.domain == ""
    ensures SameButRacks(a.now.labels, b.now.labels) <==>
            if IsStableKey(a.now.key) then AllOldBesideStable(a.nodes) else AgreeWhereStable(a.nodes)
  {
    var la :| ListsTopology(la, a.nodes) && a.read == Tidied("", a.was.key, a.nodes, la);
    ListsOfTheTwo(spec, a, b, la);
    KeptIff(b.was.domain, a.was.key, b.was.key, a.nodes, la);
    SameAsEither(a.now.labels, b.now.labels, Tidied("", a.was.key, a.nodes, la),
                 Tidied(b.was.domain, b.was.key, a.nodes, la));
  }

  ghost predicate AllOldBesideStable(nodes: seq<Node>)
  {
    OldBesideStable(nodes, ZONE_KEYS) && OldBesideStable(nodes, REGION_KEYS)
  }

  ghost predicate AgreeWhereStable(nodes: seq<Node>)
  {
    && (InUse(nodes, LABEL_ZONE_FAILURE_DOMAIN_STABLE) ==> Identical(nodes, ZONE_KEYS))
    && (InUse(nodes, LABEL_ZONE_REGION_STABLE) ==> Identical(nodes, REGION_KEYS))
  }

  lemma SameAsEither(a: Labels, b: Labels, a': Labels, b': Labels)
    requires SameButRacks(a, a') && SameButRacks(b, b')
    ensures SameButRacks(a, b) <==> SameButRacks(a', b')
  {
  }

  lemma KeptIff(fd: string, firstKey: string, fdKey: string, nodes: seq<Node>, labels: Labels)
    requires ListsTopology(labels, nodes) && fd != ""
    ensures SameButRacks(Tidied("", firstKey, nodes, labels), Tidied(fd, fdKey, nodes, labels)) <==>
            if IsStableKey(fdKey) then AllOldBesideStable(nodes) else AgreeWhereStable(nodes)
  {
    var first, later := Dropped("", firstKey, nodes, labels), Dropped(fd, fdKey, nodes, labels);
    RackKeyIsKept("", firstKey, nodes, labels);
    RackKeyIsKept(fd, fdKey, nodes, labels);
    SameListsIffSameKeys(labels, first, later);
    assert first == Dropped("", "", nodes, labels);
    if IsStableKey(fdKey) {
      KeptUnderStableKeyIff(fd, fdKey, nodes, labels);
    } else {
      KeptUnderOtherKeyIff(fd, fdKey, nodes, labels);
    }
  }

  lemma KeptUnderStableKeyIff(fd: string, fdKey: string, nodes: seq<Node>, labels: Labels)
    requires ListsTopology(labels, nodes) && fd != "" && IsStableKey(fdKey)
    ensures labels - Dropped("", "", nodes, labels) == labels - Dropped(fd, fdKey, nodes, labels) <==>
            AllOldBesideStable(nodes)
  {
    StableKeyKeepsSameLabels(fd, fdKey, nodes, labels);
    OldInUse(labels, nodes, ZONE_KEYS);
    OldInUse(labels, nodes, REGION_KEYS);
  }

  lemma OldInUse(labels: Labels, nodes: seq<Node>, keys: seq<string>)
    requires ListsTopology(labels, nodes) && |keys| == 3 && (keys == ZONE_KEYS || keys == REGION_KEYS)
    ensures OldMeansStable(labels, keys) <==> OldBesideStable(nodes, keys)
  {
    FamiliesAreTopologyLabels();
    KeyInUse(labels, nodes, keys[0]);
    KeyInUse(labels, nodes, keys[1]);
    KeyInUse(labels, nodes, keys[2]);
  }

  lemma KeptUnderOtherKeyIff(fd: string, fdKey: string, nodes: seq<Node>, labels: Labels)
    requires ListsTopology(labels, nodes) && fd != "" && !IsStableKey(fdKey)
    ensures labels - Dropped("", "", nodes, labels) == labels - Dropped(fd, fdKey, nodes, labels) <==>
            AgreeWhereStable(nodes)
  {
    assert Dropped(fd, fdKey, nodes, labels) == Dropped("rack", fdKey, nodes, labels);
    RunsKeepSameLabels(fdKey, nodes, labels);
    FamiliesAreTopologyLabels();
    assert ZONE_KEYS[0] in ZONE_KEYS && REGION_KEYS[0] in REGION_KEYS;
    KeyInUse(labels, nodes, LABEL_ZONE_FAILURE_DOMAIN_STABLE);
    KeyInUse(labels, nodes, LABEL_ZONE_REGION_STABLE);
  }

  lemma ChosenIsNotEmpty(spec: TopologySpec, labels: Labels)
    ensures ChosenDomain(spec, labels) != ""
  {
  }

  lemma CompleteIsPatched(spec: TopologySpec, run: Run)
    requires Complete(spec, run)
    ensures Patched(run.before, run.after)
    ensures SameButRacks(run.now.labels, run.read)
  {
  }

  /** Both runs in terms of the nodes of the first. */
  lemma ListsOfTheTwo(spec: TopologySpec, a: Run, b: Run, la: Labels)
    requires Complete(spec, a) && Complete(spec, b) && Follows(a, b) && a.was.domain == ""
    requires ListsTopology(la, a.nodes) && a.read == Tidied("", a.was.key, a.nodes, la)
    ensures b.was.domain != ""
    ensures SameButRacks(a.now.labels, Tidied("", a.was.key, a.nodes, la))
    ensures SameButRacks(b.now.labels, Tidied(b.was.domain, b.was.key, a.nodes, la))
  {
    ChosenIsNotEmpty(spec, a.read);
    CompleteIsPatched(spec, a);
    CompleteIsPatched(spec, b);
    var lb :| ListsTopology(lb, b.nodes) && b.read == Tidied(b.was.domain, b.was.key, b.nodes, lb);
    LaterReading(a, b, la, lb);
  }

  lemma KeyInUse(labels: Labels, nodes: seq<Node>, key: string)
    requires ListsTopology(labels, nodes) && IsTopologyLabel(key)
    ensures key in labels <==> InUse(nodes, key)
  {
    if key in labels {
      assert labels[key][0] in ValuesOf(labels, key);
    }
    if v :| SomeNodeHas(nodes, key, v) {
      assert v in ValuesOf(labels, key);
    }
  }

  /** But for the racks, the later run reads what it would have read off the nodes of the
      first. */
  lemma LaterReading(a: Run, b: Run, la: Labels, lb: Labels)
    requires IsSnapshot(a.before, a.nodes) && IsSnapshot(b.before, b.nodes) && Patched(a.before, b.before)
    requires ListsTopology(la, a.nodes) && ListsTopology(lb, b.nodes) && b.was.domain != ""
    ensures SameButRacks(Tidied(b.was.domain, b.was.key, b.nodes, lb), Tidied(b.was.domain, b.was.key, a.nodes, la))
  {
    forall key | key in ZONE_KEYS || key in REGION_KEYS { ZoneKeyIsNoRackKey(key); }
    PatchKeepsAgreement(a.before, b.before, a.nodes, b.nodes, ZONE_KEYS);
    PatchKeepsAgreement(a.before, b.before, a.nodes, b.nodes, REGION_KEYS);
    var dropped := Dropped(b.was.domain, b.was.key, a.nodes, la);
    assert dropped == Dropped(b.was.domain, b.was.key, b.nodes, lb);
    forall lbl | lbl != RACK_TOPOLOGY_KEY
      ensures ValuesOf(SortedLabels(lb - dropped), lbl) == ValuesOf(SortedLabels(la - dropped), lbl)
    {
      forall v ensures v in ValuesOf(la, lbl) <==> v in ValuesOf(lb, lbl) {
        PatchKeepsOtherLabels(a.before, b.before, a.nodes, b.nodes, lbl, v);
      }
      SameValuesSameSorted(ValuesOf(la, lbl), ValuesOf(lb, lbl));
      TidiedValues(la, dropped, lbl);
      TidiedValues(lb, dropped, lbl);
    }
  }
}
