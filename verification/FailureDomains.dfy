/** Dropping redundant zone and region labels, and the choice of the failure domain. */
module FailureDomains {
  import opened Collections
  import opened Text
  import opened Nodes
  import opened NodeTopologyMaps
  import opened NodeRacks

  type Labels = map<string, seq<string>>

  const ZONE_KEYS := [LABEL_ZONE_FAILURE_DOMAIN_STABLE, LABEL_ZONE_FAILURE_DOMAIN,
                      LABEL_ZONE_FAILURE_DOMAIN_WITHOUT_BETA]
  const REGION_KEYS := [LABEL_ZONE_REGION_STABLE, LABEL_ZONE_REGION, LABEL_ZONE_REGION_WITHOUT_BETA]

  // ----- redundant labels

  /** The node has all the keys, with one value. */
  ghost predicate Agrees(node: Node, keys: seq<string>)
  {
    forall j :: 0 <= j < |keys| ==>
        keys[j] in node.labels && keys[0] in node.labels && node.labels[keys[j]] == node.labels[keys[0]]
  }

  ghost predicate Identical(nodes: seq<Node>, keys: seq<string>)
  {
    forall n :: n in nodes ==> Agrees(n, keys)
  }

  method NodesHaveIdenticalValuesForKeys(nodes: seq<Node>, keys: seq<string>) returns (same: bool)
    ensures same == Identical(nodes, keys)
  {
    same := true;
    if |keys| == 0 { return; }
    for i := 0 to |nodes|
      invariant same == Identical(nodes[..i], keys)
    {
      var v, found := Lookup(nodes[i].labels, keys[0]), keys[0] in nodes[i].labels;
      ghost var before := same;
      if !found { same := false; }
      for j := 0 to |keys|
        invariant same == (before && found && forall k :: 0 <= k < j ==>
                    keys[k] in nodes[i].labels && nodes[i].labels[keys[k]] == v)
      {
        var next := Lookup(nodes[i].labels, keys[j]);
        if keys[j] !in nodes[i].labels { same := false; }
        if v != next { same := false; }
      }
      assert same == (before && Agrees(nodes[i], keys));
      assert nodes[..i + 1] == nodes[..i] + [nodes[i]];
    }
    assert nodes[..|nodes|] == nodes;
  }

  /** Go's map read: the zero value when the key is missing. */
  function Lookup(labels: map<string, string>, key: string): string
  {
    if key in labels then labels[key] else ""
  }

  /** One family of three keys, the stable one first: while the failure domain is open the
      old keys go as soon as the stable one is in use; under a stable failure domain they
      always go; otherwise the old keys go if all nodes agree on the three, and the stable
      key goes if they do not. */
  ghost function DroppedOf(fd: string, fdKey: string, nodes: seq<Node>, labels: Labels, keys: seq<string>): set<string>
    requires |keys| == 3
  {
    if fd == "" then (if keys[0] in labels then {keys[1], keys[2]} else {})
    else if fdKey == LABEL_ZONE_FAILURE_DOMAIN_STABLE || fdKey == LABEL_ZONE_REGION_STABLE then {keys[1], keys[2]}
    else if Identical(nodes, keys) then {keys[1], keys[2]}
    else {keys[0]}
  }

  ghost function Dropped(fd: string, fdKey: string, nodes: seq<Node>, labels: Labels): set<string>
  {
    DroppedOf(fd, fdKey, nodes, labels, ZONE_KEYS) + DroppedOf(fd, fdKey, nodes, labels, REGION_KEYS)
  }

  /** The two old keys of a family go. */
  method DropOld(topologyMap: NodeTopologyMap, keys: seq<string>)
    requires |keys| == 3
    modifies topologyMap
    ensures topologyMap.Labels == old(topologyMap.Labels) - {keys[1], keys[2]}
  {
    topologyMap.Labels := topologyMap.Labels - {keys[1]};
    topologyMap.Labels := topologyMap.Labels - {keys[2]};
  }

  /** Of a family the nodes agree on, the old keys go; of any other the stable one. */
  method DropOldOrStable(nodes: seq<Node>, topologyMap: NodeTopologyMap, keys: seq<string>)
    requires |keys| == 3
    modifies topologyMap
    ensures topologyMap.Labels == old(topologyMap.Labels) - if Identical(nodes, keys) then {keys[1], keys[2]}
            else {keys[0]}
  {
    var same := NodesHaveIdenticalValuesForKeys(nodes, keys);
    if same {
      DropOld(topologyMap, keys);
    } else {
      topologyMap.Labels := topologyMap.Labels - {keys[0]};
    }
  }

  method FilterDuplicateLabels(fd: string, fdKey: string, nodes: seq<Node>, topologyMap: NodeTopologyMap)
    modifies topologyMap
    ensures topologyMap.Labels == old(topologyMap.Labels) - Dropped(fd, fdKey, nodes, old(topologyMap.Labels))
  {
    ghost var before := topologyMap.Labels;
    var zoneKeys, regionKeys := ZONE_KEYS, REGION_KEYS;
    if fd == "" {
      var zone := topologyMap.ContainsKey(zoneKeys[0]);
      if zone { DropOld(topologyMap, zoneKeys); }
      FamiliesAreApart();
      var region := topologyMap.ContainsKey(regionKeys[0]);
      if region { DropOld(topologyMap, regionKeys); }
    } else if zoneKeys[0] == fdKey || regionKeys[0] == fdKey {
      DropOld(topologyMap, zoneKeys);
      DropOld(topologyMap, regionKeys);
    } else {
      DropOldOrStable(nodes, topologyMap, zoneKeys);
      DropOldOrStable(nodes, topologyMap, regionKeys);
    }
    RemovedInTwo(before, DroppedOf(fd, fdKey, nodes, before, zoneKeys),
                 DroppedOf(fd, fdKey, nodes, before, regionKeys));
  }

  lemma FamiliesAreApart()
    ensures REGION_KEYS[0] !in ZONE_KEYS
  {
    forall key | key in ZONE_KEYS ensures key != REGION_KEYS[0] {
      assert |key| != |REGION_KEYS[0]|;
    }
  }

  lemma RemovedInTwo(labels: Labels, a: set<string>, b: set<string>)
    ensures labels - a - b == labels - (a + b)
  {
  }

  /** Nodes that agree on a family of keys list the same values under each of them: the
      sorted list that remains under the stable key is the one that stood under each
      dropped key. */
  lemma AgreedKeysListTheSame(nodes: seq<Node>, labels: Labels, keys: seq<string>, i: nat)
    requires ListsTopology(labels, nodes) && Identical(nodes, keys) && i < |keys|
    requires forall key :: key in keys ==> IsTopologyLabel(key)
    ensures SortStrings(ValuesOf(labels, keys[i])) == SortStrings(ValuesOf(labels, keys[0]))
  {
    var a, b := ValuesOf(labels, keys[i]), ValuesOf(labels, keys[0]);
    assert keys[i] in keys && keys[0] in keys;
    forall v ensures v in a <==> v in b {
      assert v in a <==> SomeNodeHas(nodes, keys[i], v);
      assert v in b <==> SomeNodeHas(nodes, keys[0], v);
      if v in a {
        var n :| n in nodes && keys[i] in n.labels && n.labels[keys[i]] == v;
        assert keys[0] in n.labels && n.labels[keys[0]] == v;
      }
      if v in b {
        var n :| n in nodes && keys[0] in n.labels && n.labels[keys[0]] == v;
        assert keys[i] in n.labels && n.labels[keys[i]] == v;
      }
    }
    SameElementsSameMultiset(a, b);
    SortedUnique(SortStrings(a), SortStrings(b));
  }

  lemma FamilyKeepsSame(fdKey: string, nodes: seq<Node>, labels: Labels, keys: seq<string>, key: string)
    requires ListsTopology(labels, nodes) && |keys| == 3 && keys[0] != keys[1] && keys[0] != keys[2]
    requires forall key :: key in keys ==> IsTopologyLabel(key)
    requires fdKey != LABEL_ZONE_FAILURE_DOMAIN_STABLE && fdKey != LABEL_ZONE_REGION_STABLE
    requires key in labels
    ensures (keys[0] in labels ==> Identical(nodes, keys)) ==>
              (key in DroppedOf("", "", nodes, labels, keys) <==> key in DroppedOf("rack", fdKey, nodes, labels, keys))
    ensures keys[0] in labels && !Identical(nodes, keys) ==>
              keys[0] !in DroppedOf("", "", nodes, labels, keys) &&
                  keys[0] in DroppedOf("rack", fdKey, nodes, labels, keys)
  {
    if keys[0] !in labels && Identical(nodes, keys) {
      assert labels[key][0] in ValuesOf(labels, key);
      assert SomeNodeHas(nodes, key, labels[key][0]);
      var n :| n in nodes && key in n.labels;
      assert Agrees(n, keys);
      assert keys[0] in keys;
      assert SomeNodeHas(nodes, keys[0], n.labels[keys[0]]);
    }
  }

  lemma FamiliesKeepSame(fdKey: string, nodes: seq<Node>, labels: Labels, zk: seq<string>, rk: seq<string>)
    requires ListsTopology(labels, nodes) && |zk| == 3 && |rk| == 3
    requires zk[0] != zk[1] && zk[0] != zk[2] && rk[0] != rk[1] && rk[0] != rk[2]
    requires zk[0] !in rk && rk[0] !in zk
    requires forall key :: key in zk || key in rk ==> IsTopologyLabel(key)
    requires fdKey != LABEL_ZONE_FAILURE_DOMAIN_STABLE && fdKey != LABEL_ZONE_REGION_STABLE
    ensures labels - (DroppedOf("", "", nodes, labels, zk) + DroppedOf("", "", nodes, labels, rk)) ==
            labels - (DroppedOf("rack", fdKey, nodes, labels, zk) + DroppedOf("rack", fdKey, nodes, labels, rk)) <==>
            (zk[0] in labels ==> Identical(nodes, zk)) && (rk[0] in labels ==> Identical(nodes, rk))
  {
    var first := DroppedOf("", "", nodes, labels, zk) + DroppedOf("", "", nodes, labels, rk);
    var later := DroppedOf("rack", fdKey, nodes, labels, zk) + DroppedOf("rack", fdKey, nodes, labels, rk);
    forall key | key in labels
      ensures (zk[0] in labels ==> Identical(nodes, zk)) && (rk[0] in labels ==> Identical(nodes, rk)) ==>
                (key in first <==> key in later)
    {
      FamilyKeepsSame(fdKey, nodes, labels, zk, key);
      FamilyKeepsSame(fdKey, nodes, labels, rk, key);
    }
    if zk[0] in labels && !Identical(nodes, zk) {
      FamilyKeepsSame(fdKey, nodes, labels, zk, zk[0]);
      assert zk[0] in labels - first && zk[0] !in labels - later;
    }
    if rk[0] in labels && !Identical(nodes, rk) {
      FamilyKeepsSame(fdKey, nodes, labels, rk, rk[0]);
      assert rk[0] in labels - first && rk[0] !in labels - later;
    }
  }

  /** The first run, with the failure domain open, and a later run under the rack failure
      domain keep the same labels exactly when every family whose stable key is in use is
      one all nodes agree on. Nodes with the stable keys alone lose them on the second
      run. */
  lemma RunsKeepSameLabels(fdKey: string, nodes: seq<Node>, labels: Labels)
    requires ListsTopology(labels, nodes)
    requires fdKey != LABEL_ZONE_FAILURE_DOMAIN_STABLE && fdKey != LABEL_ZONE_REGION_STABLE
    ensures labels - Dropped("", "", nodes, labels) == labels - Dropped("rack", fdKey, nodes, labels) <==>
            && (LABEL_ZONE_FAILURE_DOMAIN_STABLE in labels ==> Identical(nodes, ZONE_KEYS))
            && (LABEL_ZONE_REGION_STABLE in labels ==> Identical(nodes, REGION_KEYS))
  {
    FamiliesAreTopologyLabels();
    FamiliesKeepSame(fdKey, nodes, labels, ZONE_KEYS, REGION_KEYS);
  }

  lemma FamiliesAreTopologyLabels()
    ensures forall key :: key in ZONE_KEYS || key in REGION_KEYS ==> IsTopologyLabel(key)
  {
    forall key | key in ZONE_KEYS || key in REGION_KEYS ensures IsTopologyLabel(key) {
      assert key in VALID_TOPOLOGY_LABEL_KEYS;
      assert key <= key[0..];
    }
  }

  /** Under a stable failure-domain key the later run drops all old keys: it keeps the same
      labels as the first exactly when no family has an old key in use without its stable
      one. */
  lemma StableKeyKeepsSameLabels(fd: string, fdKey: string, nodes: seq<Node>, labels: Labels)
    requires fd != "" && (fdKey == LABEL_ZONE_FAILURE_DOMAIN_STABLE || fdKey == LABEL_ZONE_REGION_STABLE)
    ensures labels - Dropped("", "", nodes, labels) == labels - Dropped(fd, fdKey, nodes, labels) <==>
            OldMeansStable(labels, ZONE_KEYS) && OldMeansStable(labels, REGION_KEYS)
  {
    var zk, rk := ZONE_KEYS, REGION_KEYS;
    FamiliesKeepOld(labels, zk, rk, DroppedOf("", "", nodes, labels, zk), DroppedOf("", "", nodes, labels, rk));
  }

  ghost predicate OldMeansStable(labels: Labels, keys: seq<string>)
    requires |keys| == 3
  {
    keys[1] in labels || keys[2] in labels ==> keys[0] in labels
  }

  lemma FamiliesKeepOld(labels: Labels, zk: seq<string>, rk: seq<string>, zones: set<string>, regions: set<string>)
    requires |zk| == 3 && |rk| == 3 && zk[1] !in rk && zk[2] !in rk
    requires zones == if zk[0] in labels then {zk[1], zk[2]} else {}
    requires regions == if rk[0] in labels then {rk[1], rk[2]} else {}
    ensures labels - (zones + regions) == labels - ({zk[1], zk[2]} + {rk[1], rk[2]}) <==>
            OldMeansStable(labels, zk) && OldMeansStable(labels, rk)
  {
    assert rk[1] in rk && rk[2] in rk;
    var kept, gone := zones + regions, {zk[1], zk[2]} + {rk[1], rk[2]};
    if labels - kept == labels - gone {
      forall key | key in labels && key in gone ensures key in kept {
        assert key !in (labels - gone).Keys;
        assert key !in (labels - kept).Keys;
      }
    } else {
      var key :| key in labels && key in gone && key !in kept;
    }
  }
}
