/** Nodes and the labels the topology code looks at. */
module Nodes {
  import opened Collections
  import opened Text

  datatype Node = Node(name: string, labels: map<string, string>)

  const RACK_TOPOLOGY_KEY := "topology.rook.io/rack"
  const LABEL_ZONE_REGION_STABLE := "topology.kubernetes.io/region"
  const LABEL_ZONE_REGION := "failure-domain.beta.kubernetes.io/region"
  const LABEL_ZONE_REGION_WITHOUT_BETA := "failure-domain.kubernetes.io/region"
  const LABEL_ZONE_FAILURE_DOMAIN_STABLE := "topology.kubernetes.io/zone"
  const LABEL_ZONE_FAILURE_DOMAIN := "failure-domain.beta.kubernetes.io/zone"
  const LABEL_ZONE_FAILURE_DOMAIN_WITHOUT_BETA := "failure-domain.kubernetes.io/zone"
  const LABEL_HOSTNAME := "kubernetes.io/hostname"
  const LABEL_ROOK_PREFIX := "topology.rook.io"

  const VALID_TOPOLOGY_LABEL_KEYS: seq<string> := [
    LABEL_ZONE_REGION_STABLE, LABEL_ZONE_REGION, LABEL_ZONE_REGION_WITHOUT_BETA,
    LABEL_ZONE_FAILURE_DOMAIN_STABLE, LABEL_ZONE_FAILURE_DOMAIN, LABEL_ZONE_FAILURE_DOMAIN_WITHOUT_BETA,
    LABEL_HOSTNAME, LABEL_ROOK_PREFIX
  ]

  predicate IsTopologyLabel(lbl: string)
  {
    exists key :: key in VALID_TOPOLOGY_LABEL_KEYS && HasSubstring(lbl, key)
  }

  predicate IsZoneLabel(lbl: string)
  {
    IsTopologyLabel(lbl) && HasSubstring(lbl, "zone")
  }

  predicate IsRackLabel(lbl: string)
  {
    HasSubstring(lbl, "rack")
  }

  /** The rack key is a topology label and a rack label, and no zone label: writing it
      on a node never changes the node's zone. */
  lemma RackKeyLabels()
    ensures IsTopologyLabel(RACK_TOPOLOGY_KEY) && IsRackLabel(RACK_TOPOLOGY_KEY) && !IsZoneLabel(RACK_TOPOLOGY_KEY)
  {
    RackKeyIsTopologyLabel();
    assert "rack" <= RACK_TOPOLOGY_KEY[17..];
    RackKeyIsNoZoneLabel();
  }

  lemma RackKeyIsTopologyLabel()
    ensures IsTopologyLabel(RACK_TOPOLOGY_KEY)
  {
    assert LABEL_ROOK_PREFIX <= RACK_TOPOLOGY_KEY[0..];
    assert VALID_TOPOLOGY_LABEL_KEYS[7] in VALID_TOPOLOGY_LABEL_KEYS;
  }

  lemma RackKeyIsNoZoneLabel()
    ensures !HasSubstring(RACK_TOPOLOGY_KEY, "zone")
  {
    LacksCharLacksSubstring(RACK_TOPOLOGY_KEY, "zone", 0);
  }

  lemma ShorterLacksSubstring(s: string, sub: string)
    requires |s| < |sub|
    ensures !HasSubstring(s, sub)
  {
    forall i | 0 <= i <= |s| ensures !(sub <= s[i..]) {
      assert |s[i..]| < |sub|;
    }
  }

  lemma ShortLabel(lbl: string)
    requires |lbl| < 16
    ensures !IsTopologyLabel(lbl)
  {
    forall key | key in VALID_TOPOLOGY_LABEL_KEYS ensures !HasSubstring(lbl, key) {
      assert |key| >= 16;
      ShorterLacksSubstring(lbl, key);
    }
  }

  /** A plain "zone" label is too short to be a topology label and names no zone; a plain
      "rack" label does name a rack. */
  lemma PlainLabels()
    ensures !IsZoneLabel("zone") && IsRackLabel("rack")
  {
    ShortLabel("zone");
    assert "rack" <= "rack"[0..];
  }

  /** The node carries zone `z`. An empty zone value does not count as a zone. */
  ghost predicate HasZone(node: Node, z: string)
  {
    z != "" && exists lbl :: lbl in node.labels && IsZoneLabel(lbl) && node.labels[lbl] == z
  }

  /** All zone labels of the node that say anything say the same. */
  ghost predicate OneZone(node: Node)
  {
    forall y, z :: HasZone(node, y) && HasZone(node, z) ==> y == z
  }

  ghost predicate InRack(node: Node, rack: string)
  {
    exists lbl :: lbl in node.labels && IsRackLabel(lbl) && node.labels[lbl] == rack
  }

  ghost predicate Racked(node: Node)
  {
    exists lbl :: lbl in node.labels && IsRackLabel(lbl)
  }

  ghost predicate UniqueNames(nodes: seq<Node>)
  {
    forall i, j :: 0 <= i < j < |nodes| ==> nodes[i].name != nodes[j].name
  }

  /** The first node of that name, as the scan over `nodes.Items` finds it. */
  function FindNode(nodes: seq<Node>, name: string): (n: Option<Node>)
    ensures n.Some? ==> n.value in nodes && n.value.name == name
    ensures n.None? ==> forall m :: m in nodes ==> m.name != name
  {
    if nodes == [] then None
    else if nodes[0].name == name then Some(nodes[0])
    else FindNode(nodes[1..], name)
  }

  lemma {:induction false} FindNodeUnique(nodes: seq<Node>, i: nat)
    requires UniqueNames(nodes) && i < |nodes|
    ensures FindNode(nodes, nodes[i].name) == Some(nodes[i])
  {
    if i > 0 {
      assert nodes[0].name != nodes[i].name;
      FindNodeUnique(nodes[1..], i - 1);
    }
  }

  /** Writing the rack key keeps every zone and adds one rack. */
  lemma RackPatchKeepsZones(node: Node, rack: string)
    ensures var patched := node.(labels := node.labels[RACK_TOPOLOGY_KEY := rack]);
            && (forall z :: HasZone(patched, z) <==> HasZone(node, z))
            && (!Racked(node) ==> forall r :: InRack(patched, r) <==> r == rack)
  {
    RackKeyLabels();
    var patched := node.(labels := node.labels[RACK_TOPOLOGY_KEY := rack]);
    forall z ensures HasZone(patched, z) <==> HasZone(node, z) {
      if HasZone(node, z) {
        var lbl :| lbl in node.labels && IsZoneLabel(lbl) && node.labels[lbl] == z;
        assert lbl in patched.labels && patched.labels[lbl] == z;
      }
      if HasZone(patched, z) {
        var lbl :| lbl in patched.labels && IsZoneLabel(lbl) && patched.labels[lbl] == z;
        assert lbl in node.labels && node.labels[lbl] == z;
      }
    }
    if !Racked(node) {
      assert RACK_TOPOLOGY_KEY in patched.labels;
      forall r ensures InRack(patched, r) <==> r == rack {
      }
    }
  }
}
