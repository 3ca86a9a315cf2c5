/** The topology runs of a single-node deployment, which forget the failure-domain values. */
module SingleNodeRuns {
  import opened Collections
  import opened Text
  import opened Nodes
  import opened NodeTopologyMaps
  import opened NodeRacks
  import opened FailureDomains
  import opened TopologyReconcile
  import opened TopologyRuns

  ghost predicate TopologyLabelHas(stored: Stored, sub: string)
  {
    exists name, lbl :: name in stored && lbl in stored[name] && IsTopologyLabel(lbl) && HasSubstring(lbl, sub)
  }

  // ----- keys of the zone and region families

  /** In the text `c` stands once, and not behind the character it has in front of it in the
      substring. */
  lemma LacksPairLacksSubstring(a: string, c: char, b: string, sub: string, k: nat)
    requires 0 < k < |sub| && sub[k] == c && c !in a && c !in b
    requires a != [] && a[|a| - 1] != sub[k - 1]
    ensures !HasSubstring(a + [c] + b, sub)
  {
    var s := a + [c] + b;
    forall i | 0 <= i <= |s| ensures !(sub <= s[i..]) {
      if i + k < |s| {
        assert s[i..][k] == s[i + k] && s[i..][k - 1] == s[i + k - 1];
        assert s[i + k] == c ==> i + k == |a|;
      }
    }
  }

  lemma OldZoneKeyText()
    ensures LABEL_ZONE_FAILURE_DOMAIN == "failure-" + ['d'] + "omain.beta.kubernetes.io/zone"
  {
  }

  lemma OldZoneKeyLacksOsd()
    ensures !HasSubstring(LABEL_ZONE_FAILURE_DOMAIN, "osd")
  {
    OldZoneKeyText();
    assert 'd' !in "omain.beta.kubernetes.io/zone";
    LacksPairLacksSubstring("failure-", 'd', "omain.beta.kubernetes.io/zone", "osd", 2);
  }

  lemma OldestZoneKeyText()
    ensures LABEL_ZONE_FAILURE_DOMAIN_WITHOUT_BETA == "failure-" + ['d'] + "omain.kubernetes.io/zone"
  {
  }

  lemma OldestZoneKeyLacksOsd()
    ensures !HasSubstring(LABEL_ZONE_FAILURE_DOMAIN_WITHOUT_BETA, "osd")
  {
    OldestZoneKeyText();
    assert 'd' !in "omain.kubernetes.io/zone";
    LacksPairLacksSubstring("failure-", 'd', "omain.kubernetes.io/zone", "osd", 2);
  }

  lemma OldRegionKeyText()
    ensures LABEL_ZONE_REGION == "failure-" + ['d'] + "omain.beta.kubernetes.io/region"
  {
  }

  lemma OldRegionKeyLacksOsd()
    ensures !HasSubstring(LABEL_ZONE_REGION, "osd")
  {
    OldRegionKeyText();
    assert 'd' !in "omain.beta.kubernetes.io/region";
    LacksPairLacksSubstring("failure-", 'd', "omain.beta.kubernetes.io/region", "osd", 2);
  }

  lemma OldestRegionKeyText()
    ensures LABEL_ZONE_REGION_WITHOUT_BETA == "failure-" + ['d'] + "omain.kubernetes.io/region"
  {
  }

  lemma OldestRegionKeyLacksOsd()
    ensures !HasSubstring(LABEL_ZONE_REGION_WITHOUT_BETA, "osd")
  {
    OldestRegionKeyText();
    assert 'd' !in "omain.kubernetes.io/region";
    LacksPairLacksSubstring("failure-", 'd', "omain.kubernetes.io/region", "osd", 2);
  }

  lemma FamiliesLackOsd()
    ensures forall key :: key in ZONE_KEYS || key in REGION_KEYS ==> !HasSubstring(key, "osd")
  {
    LacksCharLacksSubstring(LABEL_ZONE_FAILURE_DOMAIN_STABLE, "osd", 2);
    LacksCharLacksSubstring(LABEL_ZONE_REGION_STABLE, "osd", 2);
    OldZoneKeyLacksOsd();
    OldestZoneKeyLacksOsd();
    OldRegionKeyLacksOsd();
    OldestRegionKeyLacksOsd();
  }

  lemma FamiliesLackHost()
    ensures forall key :: key in ZONE_KEYS || key in REGION_KEYS ==> !HasSubstring(key, "host")
  {
    forall key | key in ZONE_KEYS || key in REGION_KEYS ensures 'h' !in key {
    }
    forall key | key in ZONE_KEYS || key in REGION_KEYS { LacksCharLacksSubstring(key, "host", 0); }
  }

  // ----- what is forgotten

  lemma ReadIsStored(run: Run, sub: string)
    requires IsSnapshot(run.before, run.nodes)
    requires ReadFrom(run.was.domain, run.was.key, run.nodes, run.read)
    requires exists lbl :: lbl in run.read && HasSubstring(lbl, sub)
    ensures TopologyLabelHas(run.before, sub)
  {
    var la :| ListsTopology(la, run.nodes) && run.read == Tidied(run.was.domain, run.was.key, run.nodes, la);
    var lbl :| lbl in run.read && HasSubstring(lbl, sub);
    ListedIsStored(run.before, run.nodes, la, lbl);
  }

  lemma StoredIsRead(run: Run, sub: string)
    requires IsSnapshot(run.before, run.nodes)
    requires ReadFrom(run.was.domain, run.was.key, run.nodes, run.read)
    requires forall key :: key in ZONE_KEYS || key in REGION_KEYS ==> !HasSubstring(key, sub)
    requires TopologyLabelHas(run.before, sub)
    ensures exists lbl :: lbl in run.read && HasSubstring(lbl, sub)
  {
    var la :| ListsTopology(la, run.nodes) && run.read == Tidied(run.was.domain, run.was.key, run.nodes, la);
    var name, lbl :| name in run.before && lbl in run.before[name] && IsTopologyLabel(lbl) && HasSubstring(lbl, sub);
    StoredIsListed(run.before, run.nodes, la, name, lbl);
    DroppedIsFamily(run.was.domain, run.was.key, run.nodes, la, lbl);
    assert lbl in run.read;
  }

  lemma DroppedIsFamily(fd: string, fdKey: string, nodes: seq<Node>, labels: Labels, key: string)
    ensures key in Dropped(fd, fdKey, nodes, labels) ==> key in ZONE_KEYS || key in REGION_KEYS
  {
  }

  /** The run read a key that contains the text exactly when some node has such a topology
      label, unless it is one of the keys that may be dropped. */
  lemma ReadHasIff(run: Run, sub: string)
    requires IsSnapshot(run.before, run.nodes)
    requires ReadFrom(run.was.domain, run.was.key, run.nodes, run.read)
    requires forall key :: key in ZONE_KEYS || key in REGION_KEYS ==> !HasSubstring(key, sub)
    ensures (exists lbl :: lbl in run.read && HasSubstring(lbl, sub)) <==> TopologyLabelHas(run.before, sub)
  {
    if exists lbl :: lbl in run.read && HasSubstring(lbl, sub) { ReadIsStored(run, sub); }
    if TopologyLabelHas(run.before, sub) { StoredIsRead(run, sub); }
  }

  lemma ListedIsStored(stored: Stored, nodes: seq<Node>, labels: Labels, lbl: string)
    requires IsSnapshot(stored, nodes) && ListsTopology(labels, nodes) && lbl in labels
    ensures IsTopologyLabel(lbl) && exists name :: name in stored && lbl in stored[name]
  {
    assert labels[lbl][0] in ValuesOf(labels, lbl);
    assert SomeNodeHas(nodes, lbl, labels[lbl][0]);
    var n :| n in nodes && lbl in n.labels;
    assert lbl in stored[n.name];
  }

  lemma StoredIsListed(stored: Stored, nodes: seq<Node>, labels: Labels, name: string, lbl: string)
    requires IsSnapshot(stored, nodes) && ListsTopology(labels, nodes) && IsTopologyLabel(lbl)
    requires name in stored && lbl in stored[name]
    ensures lbl in labels
  {
    assert Node(name, stored[name]) in nodes;
    assert SomeNodeHas(nodes, lbl, stored[name][lbl]);
    assert stored[name][lbl] in ValuesOf(labels, lbl);
  }

  lemma EmptyAnswer(labels: Labels, topologyKey: string, key: string, values: seq<string>)
    requires Tidy(labels) && Answers(labels, topologyKey, key, values)
    ensures values == [] <==> !exists lbl :: lbl in labels && HasSubstring(lbl, topologyKey)
  {
  }

  /** On a single node the values are looked up under "host" by the run that chooses the
      failure domain and under "osd" by the next. So they are lost exactly when the node has a
      topology label with "host" in its key and none with "osd". */
  lemma SingleNodeForgetsIff(spec: TopologySpec, a: Run, b: Run)
    requires Complete(spec, a) && Complete(spec, b) && Follows(a, b) && a.was.domain == "" && spec.singleNode
    ensures a.now.domain == b.now.domain == "osd"
    ensures a.now.values != [] <==> TopologyLabelHas(a.before, "host")
    ensures b.now.values != [] <==> TopologyLabelHas(a.before, "osd")
    ensures a.now.values != [] && b.now.values == [] <==>
            TopologyLabelHas(a.before, "host") && !TopologyLabelHas(a.before, "osd")
  {
    assert "osd"[0] != "rack"[0];
    FamiliesLackHost();
    FamiliesLackOsd();
    ReadHasIff(a, "host");
    ReadHasIff(b, "osd");
    EmptyAnswer(a.read, "host", a.now.key, a.now.values);
    EmptyAnswer(b.read, "osd", b.now.key, b.now.values);
  }

  // ----- a node that loses its host name and its zone

  /** A node with a key `h` and the stable key of the first family alone. */
  lemma TwoKeysDropped(node: Node, h: string, zk: seq<string>, rk: seq<string>, labels: Labels)
    requires |zk| == 3 && |rk| == 3 && h !in zk && h !in rk && zk[0] !in rk && !IsStableKey(h)
    requires zk[1] != zk[0] && zk[2] != zk[0]
    requires node.labels.Keys == {h, zk[0]} && labels.Keys == {h, zk[0]}
    ensures labels - (DroppedOf("", "", [node], labels, zk) + DroppedOf("", "", [node], labels, rk)) == labels
    ensures labels - (DroppedOf("osd", h, [node], labels, zk) + DroppedOf("osd", h, [node], labels, rk)) ==
            map[h := labels[h]]
  {
    assert rk[0] in rk && zk[1] in zk && zk[2] in zk && rk[1] in rk && rk[2] in rk;
    assert [node][0] == node;
    assert !Agrees(node, zk) && !Agrees(node, rk);
    assert !Identical([node], zk) && !Identical([node], rk);
  }

  lemma TwoKeysListing(node: Node, h: string, z: string, x: string, y: string)
    requires h != z && IsTopologyLabel(h) && IsTopologyLabel(z)
    requires node.labels == map[h := x, z := y]
    ensures ListsTopology(map[h := [x], z := [y]], [node])
  {
    assert [node][0] == node;
    forall lbl, v ensures SomeNodeHas([node], lbl, v) <==> lbl in node.labels && node.labels[lbl] == v {
    }
  }

  lemma SortOne(xs: seq<string>)
    requires |xs| == 1
    ensures SortStrings(xs) == xs
  {
    var ys := SortStrings(xs);
    assert |ys| == |multiset(ys)| == |multiset(xs)| == 1;
    assert ys[0] in multiset(xs);
  }

  lemma HostKeyIsApart()
    ensures LABEL_HOSTNAME !in ZONE_KEYS && LABEL_HOSTNAME !in REGION_KEYS && LABEL_HOSTNAME != RACK_TOPOLOGY_KEY
  {
    assert |LABEL_HOSTNAME| == 22 && |RACK_TOPOLOGY_KEY| == 21;
    forall key | key in ZONE_KEYS || key in REGION_KEYS ensures |key| != 22 {
    }
  }

  lemma ZoneKeyIsApart()
    ensures ZONE_KEYS[0] !in REGION_KEYS && ZONE_KEYS[1] != ZONE_KEYS[0] && ZONE_KEYS[2] != ZONE_KEYS[0]
  {
    assert |ZONE_KEYS[0]| == 27;
    forall key | key in REGION_KEYS || key == ZONE_KEYS[1] || key == ZONE_KEYS[2] ensures |key| != 27 {
    }
  }

  lemma OneAnswer(labels: Labels, topologyKey: string, key: string)
    requires key in labels && HasSubstring(key, topologyKey)
    requires forall lbl :: lbl in labels && HasSubstring(lbl, topologyKey) ==> lbl == key
    ensures Answers(labels, topologyKey, key, labels[key])
  {
  }

  lemma NoAnswer(labels: Labels, topologyKey: string)
    requires forall lbl :: lbl in labels ==> !HasSubstring(lbl, topologyKey)
    ensures Answers(labels, topologyKey, topologyKey, [])
  {
  }

  lemma HostKeyText()
    ensures HasSubstring(LABEL_HOSTNAME, "host") && !HasSubstring(LABEL_HOSTNAME, "osd")
    ensures IsTopologyLabel(LABEL_HOSTNAME)
  {
    assert "host" <= LABEL_HOSTNAME[14..];
    LacksCharLacksSubstring(LABEL_HOSTNAME, "osd", 2);
    assert VALID_TOPOLOGY_LABEL_KEYS[6] in VALID_TOPOLOGY_LABEL_KEYS;
    assert LABEL_HOSTNAME <= LABEL_HOSTNAME[0..];
  }

  function OneNode(): Stored
  {
    map["a" := map[LABEL_HOSTNAME := "a", LABEL_ZONE_FAILURE_DOMAIN_STABLE := "z"]]
  }

  lemma OneNodeSnapshot(node: Node)
    ensures IsSnapshot(map[node.name := node.labels], [node])
  {
    assert [node][0] == node;
  }

  lemma NoRackKeyListed(node: Node, read: Labels)
    requires RACK_TOPOLOGY_KEY !in read && RACK_TOPOLOGY_KEY !in node.labels
    ensures ListsRackKey(read, map[node.name := node.labels])
  {
    forall v ensures !SomeStoredRackKey(map[node.name := node.labels], v) {
    }
  }

  lemma DomainIsOsd(spec: TopologySpec, was: string, read: Labels)
    requires spec.singleNode && (was == "" || was == "osd")
    ensures "osd" == if was != "" then was else ChosenDomain(spec, read)
    ensures "osd" != "rack"
  {
    assert "osd"[0] != "rack"[0];
  }

  /** A complete run on one node without rack labels. */
  lemma OneNodeComplete(spec: TopologySpec, node: Node, was: TopologyView, read: Labels, key: string,
                        values: seq<string>)
    returns (run: Run)
    requires spec.singleNode && IsMinimum(spec, 1)
    requires ReadFrom(was.domain, was.key, [node], read) && Tidy(read)
    requires RACK_TOPOLOGY_KEY !in read && RACK_TOPOLOGY_KEY !in node.labels
    requires was.domain == "" || was.domain == "osd"
    requires Answers(read, if was.domain == "" then "host" else "osd", key, values)
    ensures Complete(spec, run) && run.before == map[node.name := node.labels] == run.after
    ensures run.was == was && run.now == TopologyView("osd", key, values, read)
  {
    var stored: Stored := map[node.name := node.labels];
    OneNodeSnapshot(node);
    NoRackKeyListed(node, read);
    DomainIsOsd(spec, was.domain, read);
    run := Run(stored, was, 1, [node], read, [], stored, TopologyView("osd", key, values, read));
  }

  /** One node with a host name and the stable zone label: the first run lists both and takes
      the host name as failure-domain value; the next has no value any more and has dropped
      the zone. */
  lemma SingleNodeForgets() returns (spec: TopologySpec, a: Run, b: Run)
    ensures Complete(spec, a) && Complete(spec, b) && Follows(a, b) && a.was == TopologyView("", "", [], map[])
    ensures a.before == OneNode() && spec.singleNode
    ensures a.now.values == ["a"] && b.now.values == []
    ensures LABEL_ZONE_FAILURE_DOMAIN_STABLE in a.now.labels && LABEL_ZONE_FAILURE_DOMAIN_STABLE !in b.now.labels
  {
    spec := TopologySpec(false, false, true, []);
    HostKeyIsApart();
    ZoneKeyIsApart();
    HostKeyText();
    FamiliesAreTopologyLabels();
    FamiliesLackHost();
    ZoneKeyIsNoRackKey(LABEL_ZONE_FAILURE_DOMAIN_STABLE);
    a, b := TwoKeysRuns(spec, LABEL_HOSTNAME, LABEL_ZONE_FAILURE_DOMAIN_STABLE);
  }

  /** A host key and the stable zone key, apart from each other and from the other keys. */
  ghost predicate HostAndZone(h: string, z: string)
  {
    && h !in ZONE_KEYS && h !in REGION_KEYS && z == ZONE_KEYS[0] && z !in REGION_KEYS
    && ZONE_KEYS[1] != z && ZONE_KEYS[2] != z && h != RACK_TOPOLOGY_KEY && z != RACK_TOPOLOGY_KEY
    && IsTopologyLabel(h) && IsTopologyLabel(z)
  }

  lemma HostIsNotZone(h: string, z: string)
    requires HostAndZone(h, z)
    ensures h != z && !IsStableKey(h)
  {
    assert ZONE_KEYS[0] in ZONE_KEYS && REGION_KEYS[0] in REGION_KEYS;
  }

  lemma SingletonsSorted(labels: Labels)
    requires forall key :: key in labels ==> |labels[key]| == 1
    ensures SortedLabels(labels) == labels
  {
    forall key | key in labels ensures SortStrings(labels[key]) == labels[key] {
      SortOne(labels[key]);
    }
  }

  lemma FirstReading(node: Node, h: string, z: string, x: string, y: string)
    requires HostAndZone(h, z) && node.labels == map[h := x, z := y]
    ensures ReadFrom("", "", [node], map[h := [x], z := [y]])
  {
    var both: Labels := map[h := [x], z := [y]];
    HostIsNotZone(h, z);
    TwoKeysListing(node, h, z, x, y);
    TwoKeysDropped(node, h, ZONE_KEYS, REGION_KEYS, both);
    SingletonsSorted(both);
    assert Tidied("", "", [node], both) == both;
  }

  lemma SecondReading(node: Node, h: string, z: string, x: string, y: string)
    requires HostAndZone(h, z) && node.labels == map[h := x, z := y]
    ensures ReadFrom("osd", h, [node], map[h := [x]])
  {
    var both: Labels := map[h := [x], z := [y]];
    HostIsNotZone(h, z);
    TwoKeysListing(node, h, z, x, y);
    TwoKeysDropped(node, h, ZONE_KEYS, REGION_KEYS, both);
    SingletonsSorted(map[h := [x]]);
    assert Tidied("osd", h, [node], both) == map[h := [x]];
  }

  lemma TwoKeysTidy(h: string, z: string, x: string, y: string)
    requires h != z && h != RACK_TOPOLOGY_KEY && z != RACK_TOPOLOGY_KEY
    ensures var read: Labels := map[h := [x], z := [y]];
            Tidy(read) && RACK_TOPOLOGY_KEY !in read && read[h] == [x]
  {
  }

  lemma TwoKeysAnswer(h: string, z: string, x: string, y: string)
    requires h != z && HasSubstring(h, "host") && !HasSubstring(z, "host")
    ensures Answers(map[h := [x], z := [y]], "host", h, [x])
  {
    OneAnswer(map[h := [x], z := [y]], "host", h);
  }

  lemma FirstOfTwo(spec: TopologySpec, node: Node, h: string, z: string, x: string, y: string) returns (run: Run)
    requires HostAndZone(h, z) && node.labels == map[h := x, z := y] && spec.singleNode && IsMinimum(spec, 1)
    requires HasSubstring(h, "host") && !HasSubstring(z, "host")
    ensures Complete(spec, run) && run.before == map[node.name := node.labels] == run.after
    ensures run.was == TopologyView("", "", [], map[])
    ensures run.now == TopologyView("osd", h, [x], map[h := [x], z := [y]])
  {
    var read: Labels, was := map[h := [x], z := [y]], TopologyView("", "", [], map[]);
    HostIsNotZone(h, z);
    TwoKeysTidy(h, z, x, y);
    assert Answers(read, if was.domain == "" then "host" else "osd", h, [x]) by { TwoKeysAnswer(h, z, x, y); }
    assert ReadFrom(was.domain, was.key, [node], read) by { FirstReading(node, h, z, x, y); }
    run := OneNodeComplete(spec, node, was, read, h, [x]);
  }

  lemma SecondOfTwo(spec: TopologySpec, node: Node, h: string, z: string, x: string, y: string, was: TopologyView)
    returns (run: Run)
    requires HostAndZone(h, z) && node.labels == map[h := x, z := y] && spec.singleNode && IsMinimum(spec, 1)
    requires !HasSubstring(h, "osd") && was.domain == "osd" && was.key == h
    ensures Complete(spec, run) && run.before == map[node.name := node.labels] && run.was == was
    ensures run.now == TopologyView("osd", "osd", [], map[h := [x]])
  {
    SecondReading(node, h, z, x, y);
    NoAnswer(map[h := [x]], "osd");
    run := OneNodeComplete(spec, node, was, map[h := [x]], "osd", []);
  }

  lemma TwoKeysRuns(spec: TopologySpec, h: string, z: string) returns (a: Run, b: Run)
    requires HostAndZone(h, z) && spec.singleNode && IsMinimum(spec, 1)
    requires HasSubstring(h, "host") && !HasSubstring(h, "osd") && !HasSubstring(z, "host")
    ensures Complete(spec, a) && Complete(spec, b) && Follows(a, b)
    ensures a.was == TopologyView("", "", [], map[]) && a.before == map["a" := map[h := "a", z := "z"]]
    ensures a.now.values == ["a"] && b.now.values == [] && z in a.now.labels && z !in b.now.labels
  {
    var node := Node("a", map[h := "a", z := "z"]);
    HostIsNotZone(h, z);
    a := FirstOfTwo(spec, node, h, z, "a", "z");
    b := SecondOfTwo(spec, node, h, z, "a", "z", a.now);
  }
}
