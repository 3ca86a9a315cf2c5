/** When the zones of the nodes become the failure domain, in terms of the nodes' labels. */
module ZoneChoice {
  import opened Collections
  import opened Text
  import opened Nodes
  import opened NodeTopologyMaps
  import opened NodeRacks
  import opened FailureDomains
  import opened TopologyReconcile
  import opened TopologyRuns

  /** The distinct values that the stored nodes carry under a key. */
  ghost function StoredValues(stored: Stored, key: string): set<string>
  {
    set name | name in stored && key in stored[name] :: stored[name][key]
  }

  lemma {:induction false} ListingSize(xs: seq<string>, elements: set<string>)
    requires NoDuplicates(xs) && forall x :: x in xs <==> x in elements
    ensures |elements| == |xs|
  {
    if xs == [] {
      assert elements == {};
    } else {
      var rest, last := xs[..|xs| - 1], xs[|xs| - 1];
      assert xs == rest + [last];
      ListingSize(rest, elements - {last});
    }
  }

  lemma ReadValueIsStored(run: Run, key: string, v: string)
    requires IsSnapshot(run.before, run.nodes) && ReadFrom(run.was.domain, run.was.key, run.nodes, run.read)
    requires key in run.read
    ensures v in run.read[key] <==> v in StoredValues(run.before, key)
  {
    var labels :| ListsTopology(labels, run.nodes) &&
        run.read == Tidied(run.was.domain, run.was.key, run.nodes, labels);
    SortKeepsElements(labels[key]);
    assert labels[key][0] in ValuesOf(labels, key);
    assert v in ValuesOf(labels, key) <==> SomeNodeHas(run.nodes, key, v);
    if name :| name in run.before && key in run.before[name] && run.before[name][key] == v {
      assert Node(name, run.before[name]) in run.nodes;
    }
  }

  /** A list that a run has read is as long as there are distinct values on the nodes. */
  lemma ReadCountsValues(run: Run, key: string)
    requires IsSnapshot(run.before, run.nodes) && ReadFrom(run.was.domain, run.was.key, run.nodes, run.read)
    requires Tidy(run.read) && key in run.read
    ensures |run.read[key]| == |StoredValues(run.before, key)|
  {
    var values := StoredValues(run.before, key);
    forall v ensures v in run.read[key] <==> v in values { ReadValueIsStored(run, key, v); }
    ListingSize(run.read[key], values);
  }

  /** Under some listed zone key the nodes carry at least so many distinct values. */
  ghost predicate ZonesAtLeast(run: Run, n: nat)
  {
    exists key :: key in run.read && HasSubstring(key, "zone") && |StoredValues(run.before, key)| >= n
  }

  /** The run that chooses the failure domain: one node makes it "osd", flexible scaling
      "host"; otherwise it is "zone" when the nodes carry at least three distinct values under
      some listed zone key, or two with an arbiter, and "rack" when they do not. */
  lemma ZonesDecide(spec: TopologySpec, run: Run)
    requires Complete(spec, run) && run.was.domain == ""
    ensures spec.singleNode ==> run.now.domain == "osd"
    ensures !spec.singleNode && spec.flexibleScaling ==> run.now.domain == "host"
    ensures !spec.singleNode && !spec.flexibleScaling ==>
              run.now.domain == if ZonesAtLeast(run, if spec.arbiter then 2 else 3) then "zone" else "rack"
  {
    forall key | key in run.read { ReadCountsValues(run, key); }
  }

  lemma StableZoneKeyIsZoneLabel()
    ensures IsTopologyLabel(LABEL_ZONE_FAILURE_DOMAIN_STABLE) && HasSubstring(LABEL_ZONE_FAILURE_DOMAIN_STABLE, "zone")
  {
    FamiliesAreTopologyLabels();
    assert ZONE_KEYS[0] in ZONE_KEYS;
    assert "zone" <= LABEL_ZONE_FAILURE_DOMAIN_STABLE[23..];
  }

  lemma StableZoneKeyIsKept(fdKey: string, nodes: seq<Node>, labels: Labels)
    ensures LABEL_ZONE_FAILURE_DOMAIN_STABLE !in Dropped("", fdKey, nodes, labels)
  {
    var stable := LABEL_ZONE_FAILURE_DOMAIN_STABLE;
    assert |ZONE_KEYS[1]| != |stable| && |ZONE_KEYS[2]| != |stable|;
    assert |REGION_KEYS[1]| != |stable| && |REGION_KEYS[2]| != |stable|;
  }

  /** A topology label that is not dropped and that some node carries is read. */
  lemma CarriedIsRead(run: Run, key: string)
    requires IsSnapshot(run.before, run.nodes) && ReadFrom("", run.was.key, run.nodes, run.read)
    requires IsTopologyLabel(key) && StoredValues(run.before, key) != {}
    requires forall labels :: key !in Dropped("", run.was.key, run.nodes, labels)
    ensures key in run.read
  {
    var labels :| ListsTopology(labels, run.nodes) && run.read == Tidied("", run.was.key, run.nodes, labels);
    var v :| v in StoredValues(run.before, key);
    var name :| name in run.before && key in run.before[name] && run.before[name][key] == v;
    assert Node(name, run.before[name]) in run.nodes;
    assert SomeNodeHas(run.nodes, key, v);
    assert v in ValuesOf(labels, key);
  }

  /** A key that was read is a topology label that some node carries. */
  lemma ReadIsCarried(run: Run, key: string)
    requires IsSnapshot(run.before, run.nodes) && ReadFrom(run.was.domain, run.was.key, run.nodes, run.read)
    requires key in run.read
    ensures IsTopologyLabel(key) && exists name :: name in run.before && key in run.before[name]
  {
    var labels :| ListsTopology(labels, run.nodes) &&
        run.read == Tidied(run.was.domain, run.was.key, run.nodes, labels);
    assert labels[key][0] in ValuesOf(labels, key);
    assert SomeNodeHas(run.nodes, key, labels[key][0]);
    var n :| n in run.nodes && key in n.labels;
    assert n.name in run.before && key in run.before[n.name];
  }

  predicate ZoneMeansStable(lbl: string)
  {
    IsZoneLabel(lbl) ==> lbl == LABEL_ZONE_FAILURE_DOMAIN_STABLE
  }

  /** The nodes carry no zone label but the stable one. */
  ghost predicate OnlyStableZones(stored: Stored)
  {
    forall name, lbl :: name in stored && lbl in stored[name] ==> ZoneMeansStable(lbl)
  }

  lemma OnlyStableIsRead(run: Run, key: string)
    requires IsSnapshot(run.before, run.nodes) && ReadFrom(run.was.domain, run.was.key, run.nodes, run.read)
    requires OnlyStableZones(run.before) && key in run.read
    ensures HasSubstring(key, "zone") ==> key == LABEL_ZONE_FAILURE_DOMAIN_STABLE
  {
    ReadIsCarried(run, key);
    assert ZoneMeansStable(key);
  }

  /** With one zone key, the number of zones listed under it decides. */
  lemma OneKeyDecides(run: Run, stable: string, n: nat)
    requires n > 0 && HasSubstring(stable, "zone")
    requires forall key :: key in run.read && HasSubstring(key, "zone") ==> key == stable
    requires StoredValues(run.before, stable) != {} ==> stable in run.read
    ensures ZonesAtLeast(run, n) <==> |StoredValues(run.before, stable)| >= n
  {
  }

  lemma StableIsRead(run: Run)
    requires IsSnapshot(run.before, run.nodes) && ReadFrom("", run.was.key, run.nodes, run.read)
    ensures StoredValues(run.before, LABEL_ZONE_FAILURE_DOMAIN_STABLE) != {} ==>
              LABEL_ZONE_FAILURE_DOMAIN_STABLE in run.read
  {
    if StoredValues(run.before, LABEL_ZONE_FAILURE_DOMAIN_STABLE) != {} {
      StableZoneKeyIsZoneLabel();
      forall labels { StableZoneKeyIsKept(run.was.key, run.nodes, labels); }
      CarriedIsRead(run, LABEL_ZONE_FAILURE_DOMAIN_STABLE);
    }
  }

  /** On nodes whose only zone label is the stable one, the number of zones decides: two of
      them give "zone" with an arbiter and "rack" without, three give "zone" in any case. */
  lemma CountZones(spec: TopologySpec, run: Run)
    requires Complete(spec, run) && run.was.domain == "" && !spec.singleNode && !spec.flexibleScaling
    requires OnlyStableZones(run.before)
    ensures var zones := |StoredValues(run.before, LABEL_ZONE_FAILURE_DOMAIN_STABLE)|;
            && (zones <= 1 ==> run.now.domain == "rack")
            && (zones == 2 ==> run.now.domain == if spec.arbiter then "zone" else "rack")
            && (zones >= 3 ==> run.now.domain == "zone")
  {
    ZonesDecide(spec, run);
    var n := if spec.arbiter then 2 else 3;
    assert ZonesAtLeast(run, n) <==> |StoredValues(run.before, LABEL_ZONE_FAILURE_DOMAIN_STABLE)| >= n by {
      forall key | key in run.read { OnlyStableIsRead(run, key); }
      StableZoneKeyIsZoneLabel();
      StableIsRead(run);
      OneKeyDecides(run, LABEL_ZONE_FAILURE_DOMAIN_STABLE, n);
    }
  }

  /** Node `i` carries zone `zones[i]` in the stable label, and nothing else. */
  function Zoned(zones: seq<string>): Stored
  {
    if zones == [] then map[]
    else
      var n := |zones| - 1;
      Zoned(zones[..n])[Numbered("node", n) := map[LABEL_ZONE_FAILURE_DOMAIN_STABLE := zones[n]]]
  }

  lemma {:induction false} ZonedNode(zones: seq<string>, name: string)
    ensures name in Zoned(zones) <==> exists i: nat :: i < |zones| && name == Numbered("node", i)
    ensures forall i: nat :: i < |zones| && name == Numbered("node", i) ==>
              Zoned(zones)[name] == map[LABEL_ZONE_FAILURE_DOMAIN_STABLE := zones[i]]
  {
    if zones != [] {
      var n := |zones| - 1;
      ZonedNode(zones[..n], name);
      forall i: nat | i < n && name == Numbered("node", i) ensures name != Numbered("node", n) {
        if name == Numbered("node", n) { NumberedInjective("node", i, "node", n); }
      }
    }
  }

  ghost function Elements(zones: seq<string>): set<string>
  {
    set z | z in zones
  }

  lemma ZonesOfZoned(zones: seq<string>)
    ensures StoredValues(Zoned(zones), LABEL_ZONE_FAILURE_DOMAIN_STABLE) == Elements(zones)
    ensures OnlyStableZones(Zoned(zones))
  {
    var stored, stable := Zoned(zones), LABEL_ZONE_FAILURE_DOMAIN_STABLE;
    forall name { ZonedNode(zones, name); }
    forall i: nat | i < |zones| ensures zones[i] in StoredValues(stored, stable) {
      assert Numbered("node", i) in stored;
      assert stored[Numbered("node", i)] == map[stable := zones[i]];
    }
  }

  /** On any number of nodes in these zones the number of distinct zones decides. */
  lemma ZonedDecides(spec: TopologySpec, run: Run, zones: seq<string>)
    requires Complete(spec, run) && run.was.domain == "" && !spec.singleNode && !spec.flexibleScaling
    requires run.before == Zoned(zones)
    ensures run.now.domain == if |Elements(zones)| >= (if spec.arbiter then 2 else 3) then "zone" else "rack"
  {
    ZonesOfZoned(zones);
    CountZones(spec, run);
  }

  lemma TwoAndThreeZones()
    ensures |Elements(["a", "b", "a", "b"])| == 2 && |Elements(["a", "b", "c", "c"])| == 3
  {
    var a, b, c := "a", "b", "c";
    assert a[0] != b[0] && a[0] != c[0] && b[0] != c[0];
    assert Elements([a, b, a, b]) == {a, b} && Elements([a, b, c, c]) == {a, b, c};
  }

  /** Four nodes in the zones a and b: the failure domain is "rack", and with an arbiter it
      is "zone". Four nodes in a, b and c: it is "zone". */
  lemma TwoZonesNeedAnArbiter(spec: TopologySpec, run: Run)
    requires Complete(spec, run) && run.was.domain == "" && !spec.singleNode && !spec.flexibleScaling
    ensures run.before == Zoned(["a", "b", "a", "b"]) ==> run.now.domain == if spec.arbiter then "zone" else "rack"
    ensures run.before == Zoned(["a", "b", "c", "c"]) ==> run.now.domain == "zone"
  {
    TwoAndThreeZones();
    if run.before == Zoned(["a", "b", "a", "b"]) { ZonedDecides(spec, run, ["a", "b", "a", "b"]); }
    if run.before == Zoned(["a", "b", "c", "c"]) { ZonedDecides(spec, run, ["a", "b", "c", "c"]); }
  }

  /** The choice on a map that lists these zones and nothing else. */
  lemma ListedZonesDecide(spec: TopologySpec, zones: seq<string>)
    requires !spec.singleNode && !spec.flexibleScaling
    ensures var labels: Labels := map[LABEL_ZONE_FAILURE_DOMAIN_STABLE := zones];
            && (|zones| <= 1 ==> ChosenDomain(spec, labels) == "rack")
            && (|zones| == 2 ==> ChosenDomain(spec, labels) == if spec.arbiter then "zone" else "rack")
            && (|zones| >= 3 ==> ChosenDomain(spec, labels) == "zone")
  {
    StableZoneKeyIsZoneLabel();
    var labels: Labels := map[LABEL_ZONE_FAILURE_DOMAIN_STABLE := zones];
    assert LABEL_ZONE_FAILURE_DOMAIN_STABLE in labels;
  }
}
