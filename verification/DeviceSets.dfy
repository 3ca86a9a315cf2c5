/** From the device sets of the spec to the OSD sets of the CephCluster, the number of
    OSDs, the detection of an expansion, and the pools that must fit the OSD sets. */
module DeviceSets {
  import opened Collections
  import opened Text

  datatype StorageDeviceSet = StorageDeviceSet(
    name: string, count: int, replica: int, deviceClass: string, deviceType: string)

  datatype Spec = Spec(
    name: string,
    deviceSets: seq<StorageDeviceSet>,
    nonResilient: bool,
    nonResilientCount: int,
    nfs: bool,
    failureDomain: string,
    failureDomainKey: string,
    failureDomainValues: seq<string>)

  /** A node label and the one value it must have. */
  datatype Pin = Pin(key: string, value: string)

  datatype OsdSet = OsdSet(name: string, count: int, crushDeviceClass: string, pin: Option<Pin>)

  const DEVICE_SET_REPLICA := 3

  /** Go's integer division, which truncates toward zero. */
  function GoDiv(a: int, b: int): (q: int)
    requires b > 0
    ensures a >= 0 ==> q * b <= a < (q + 1) * b
    ensures a < 0 ==> (q - 1) * b < a <= q * b
  {
    if a >= 0 then a / b else -((-a) / b)
  }

  /** Without a replica count there are three sets of a third of the devices each. */
  function CountAndReplicaOf(ds: StorageDeviceSet): (int, int)
  {
    if ds.replica == 0 then (GoDiv(ds.count, 3), DEVICE_SET_REPLICA) else (ds.count, ds.replica)
  }

  // ----- the OSD sets

  function ClassOf(spec: Spec, ds: StorageDeviceSet): string
  {
    if spec.nonResilient then "replicated"
    else if ds.deviceClass != "" then ds.deviceClass
    else ds.deviceType
  }

  function SetsOf(spec: Spec, ds: StorageDeviceSet, n: nat): (sets: seq<OsdSet>)
    ensures |sets| == n
  {
    seq(n, (i: int) requires 0 <= i < n => OsdSet(Numbered(ds.name, i), CountAndReplicaOf(ds).0, ClassOf(spec, ds),
                                                  None))
  }

  function Copies(ds: StorageDeviceSet): nat
  {
    var replica := CountAndReplicaOf(ds).1;
    if replica < 0 then 0 else replica
  }

  function RegularSets(spec: Spec, n: nat): seq<OsdSet>
    requires n <= |spec.deviceSets|
  {
    if n == 0 then [] else RegularSets(spec, n - 1) + SetsOf(spec, spec.deviceSets[n - 1],
                                                             Copies(spec.deviceSets[n - 1]))
  }

  function Regular(spec: Spec): seq<OsdSet>
  {
    RegularSets(spec, |spec.deviceSets|)
  }

  function OsdSetFor(spec: Spec, value: string): OsdSet
  {
    OsdSet(value, spec.nonResilientCount, value, Some(Pin(spec.failureDomainKey, value)))
  }

  function NonResilient(spec: Spec): (sets: seq<OsdSet>)
    ensures |sets| == if spec.nonResilient then |spec.failureDomainValues| else 0
  {
    if spec.nonResilient then
      seq(|spec.failureDomainValues|, (i: int) requires 0 <= i < |spec.failureDomainValues| =>
        OsdSetFor(spec, spec.failureDomainValues[i]))
    else []
  }

  function OsdSets(spec: Spec): seq<OsdSet>
  {
    Regular(spec) + NonResilient(spec)
  }

  /** The sets for non-resilient pools take defaults from the first device set, so the
      conversion needs one as soon as there is a set to make. */
  predicate Panics(spec: Spec)
  {
    spec.nonResilient && spec.failureDomainValues != [] && spec.deviceSets == []
  }

  method NewStorageClassDeviceSets(spec: Spec) returns (sets: Option<seq<OsdSet>>)
    ensures sets == if Panics(spec) then None else Some(OsdSets(spec))
  {
    var storageClassDeviceSets: seq<OsdSet> := [];
    for d := 0 to |spec.deviceSets|
      invariant storageClassDeviceSets == RegularSets(spec, d)
    {
      var ds := spec.deviceSets[d];
      var (count, replica) := CountAndReplicaOf(ds);
      var i := 0;
      while i < replica
        invariant 0 <= i <= Copies(ds)
        invariant storageClassDeviceSets == RegularSets(spec, d) + SetsOf(spec, ds, i)
      {
        var crushDeviceClass := ds.deviceType;
        if ds.deviceClass != "" { crushDeviceClass := ds.deviceClass; }
        if spec.nonResilient { crushDeviceClass := "replicated"; }
        var osds := OsdSet(Numbered(ds.name, i), count, crushDeviceClass, None);
        assert SetsOf(spec, ds, i + 1) == SetsOf(spec, ds, i) + [osds];
        storageClassDeviceSets := storageClassDeviceSets + [osds];
        i := i + 1;
      }
    }
    assert storageClassDeviceSets == Regular(spec);
    if spec.nonResilient {
      ghost var all := NonResilient(spec);
      for i := 0 to |spec.failureDomainValues|
        invariant i > 0 ==> spec.deviceSets != []
        invariant storageClassDeviceSets == Regular(spec) + all[..i]
      {
        if |spec.deviceSets| == 0 { return None; }
        var v := spec.failureDomainValues[i];
        var ds := OsdSet(v, spec.nonResilientCount, v, Some(Pin(spec.failureDomainKey, v)));
        assert all[..i + 1] == all[..i] + [ds];
        storageClassDeviceSets := storageClassDeviceSets + [ds];
      }
      assert all[..|spec.failureDomainValues|] == all;
    }
    assert storageClassDeviceSets == OsdSets(spec);
    return Some(storageClassDeviceSets);
  }

  /** Every regular set comes from one replica of one device set. It is named after both,
      and carries the class of the device set: "replicated" beside non-resilient pools,
      otherwise the class the device set names or else its device type. Without a replica
      count there are three sets of a third of the devices each. */
  lemma {:induction false} RegularSetComesFrom(spec: Spec, n: nat, k: nat) returns (d: nat, i: nat)
    requires n <= |spec.deviceSets| && k < |RegularSets(spec, n)|
    ensures d < n
    ensures var (ds, osds) := (spec.deviceSets[d], RegularSets(spec, n)[k]);
            && i < (if ds.replica == 0 then 3 else ds.replica)
            && osds.name == ds.name + "-" + Decimal(i) && osds.pin == None
            && osds.count == (if ds.replica == 0 then GoDiv(ds.count, 3) else ds.count)
            && osds.crushDeviceClass ==
               (if spec.nonResilient then "replicated" else if ds.deviceClass != "" then ds.deviceClass
                else ds.deviceType)
  {
    var before := RegularSets(spec, n - 1);
    if k < |before| {
      d, i := RegularSetComesFrom(spec, n - 1, k);
    } else {
      d, i := n - 1, k - |before|;
    }
  }

  /** Every replica of every device set has its regular set. */
  lemma {:induction false} ReplicaHasSet(spec: Spec, n: nat, d: nat, i: nat) returns (k: nat)
    requires d < n <= |spec.deviceSets|
    requires i < (if spec.deviceSets[d].replica == 0 then 3 else spec.deviceSets[d].replica)
    ensures k < |RegularSets(spec, n)|
    ensures RegularSets(spec, n)[k].name == spec.deviceSets[d].name + "-" + Decimal(i)
  {
    if d < n - 1 {
      k := ReplicaHasSet(spec, n - 1, d, i);
      assert RegularSets(spec, n)[k] == RegularSets(spec, n - 1)[k];
    } else {
      k := |RegularSets(spec, n - 1)| + i;
      assert RegularSets(spec, n)[k] == SetsOf(spec, spec.deviceSets[d], Copies(spec.deviceSets[d]))[i];
    }
  }

  // ----- the number of OSDs

  function Total(sets: seq<OsdSet>): int
  {
    if sets == [] then 0 else Total(sets[..|sets| - 1]) + sets[|sets| - 1].count
  }

  lemma {:induction false} TotalConcat(a: seq<OsdSet>, b: seq<OsdSet>)
    ensures Total(a + b) == Total(a) + Total(b)
  {
    if b == [] {
      assert a + b == a;
    } else {
      assert (a + b)[..|a + b| - 1] == a + b[..|b| - 1];
      TotalConcat(a, b[..|b| - 1]);
    }
  }

  lemma {:induction false} TotalOfEqual(sets: seq<OsdSet>, count: int)
    requires forall i :: 0 <= i < |sets| ==> sets[i].count == count
    ensures Total(sets) == |sets| * count
  {
    if sets != [] {
      TotalOfEqual(sets[..|sets| - 1], count);
    }
  }

  /** What one device set contributes: its count for every replica, and three thirds,
      rounded down, of its count when it names no replica count. */
  function OsdsOf(ds: StorageDeviceSet): int
  {
    if ds.replica == 0 then 3 * GoDiv(ds.count, 3)
    else if ds.replica < 0 then 0
    else ds.count * ds.replica
  }

  function SumOsds(deviceSets: seq<StorageDeviceSet>, n: nat): int
    requires n <= |deviceSets|
  {
    if n == 0 then 0 else SumOsds(deviceSets, n - 1) + OsdsOf(deviceSets[n - 1])
  }

  lemma CopiesTimesCount(ds: StorageDeviceSet)
    ensures Copies(ds) * CountAndReplicaOf(ds).0 == OsdsOf(ds)
  {
    if ds.replica > 0 {
      assert Copies(ds) == ds.replica;
    } else if ds.replica == 0 {
      assert Copies(ds) == 3;
    } else {
      assert Copies(ds) == 0;
    }
  }

  lemma SetsTotal(spec: Spec, ds: StorageDeviceSet)
    ensures Total(SetsOf(spec, ds, Copies(ds))) == OsdsOf(ds)
  {
    TotalOfEqual(SetsOf(spec, ds, Copies(ds)), CountAndReplicaOf(ds).0);
    CopiesTimesCount(ds);
  }

  lemma {:induction false} RegularTotal(spec: Spec, n: nat)
    requires n <= |spec.deviceSets|
    ensures Total(RegularSets(spec, n)) == SumOsds(spec.deviceSets, n)
  {
    if n > 0 {
      RegularTotal(spec, n - 1);
      var ds := spec.deviceSets[n - 1];
      TotalConcat(RegularSets(spec, n - 1), SetsOf(spec, ds, Copies(ds)));
      SetsTotal(spec, ds);
    }
  }

  /** The OSD count is conserved by the conversion: the sum over the device sets, and the
      count for non-resilient pools once per failure-domain value. */
  lemma OsdConservation(spec: Spec)
    ensures Total(OsdSets(spec)) ==
            SumOsds(spec.deviceSets, |spec.deviceSets|) +
            (if spec.nonResilient then |spec.failureDomainValues| * spec.nonResilientCount else 0)
  {
    RegularTotal(spec, |spec.deviceSets|);
    TotalConcat(Regular(spec), NonResilient(spec));
    TotalOfEqual(NonResilient(spec), spec.nonResilientCount);
  }

  method GetOsdCount(spec: Spec) returns (osdCount: Option<int>)
    ensures osdCount ==
            if Panics(spec) then None
            else Some(SumOsds(spec.deviceSets, |spec.deviceSets|) +
                      (if spec.nonResilient then |spec.failureDomainValues| * spec.nonResilientCount else 0))
  {
    var sets := NewStorageClassDeviceSets(spec);
    if sets.None? { return None; }
    var count := 0;
    for i := 0 to |sets.value|
      invariant count == Total(sets.value[..i])
    {
      assert sets.value[..i + 1][..i] == sets.value[..i];
      count := count + sets.value[i].count;
    }
    assert sets.value[..|sets.value|] == sets.value;
    OsdConservation(spec);
    return Some(count);
  }

  // ----- names

  ghost predicate DistinctNames(sets: seq<OsdSet>)
  {
    forall i, j :: 0 <= i < j < |sets| ==> sets[i].name != sets[j].name
  }

  ghost predicate Named(sets: seq<OsdSet>, name: string)
  {
    exists i :: 0 <= i < |sets| && sets[i].name == name
  }

  ghost predicate DistinctDeviceSets(spec: Spec)
  {
    forall i, j :: 0 <= i < j < |spec.deviceSets| ==> spec.deviceSets[i].name != spec.deviceSets[j].name
  }

  lemma {:induction false} RegularNames(spec: Spec, n: nat, k: nat) returns (d: nat, i: nat)
    requires n <= |spec.deviceSets| && k < |RegularSets(spec, n)|
    ensures d < n && RegularSets(spec, n)[k].name == Numbered(spec.deviceSets[d].name, i)
  {
    var before := RegularSets(spec, n - 1);
    if k < |before| {
      d, i := RegularNames(spec, n - 1, k);
    } else {
      d, i := n - 1, k - |before|;
    }
  }

  /** Device sets with distinct names give OSD sets with distinct names. */
  lemma {:induction false} RegularNamesDistinct(spec: Spec, n: nat)
    requires n <= |spec.deviceSets| && DistinctDeviceSets(spec)
    ensures DistinctNames(RegularSets(spec, n))
  {
    if n > 0 {
      RegularNamesDistinct(spec, n - 1);
      var before := RegularSets(spec, n - 1);
      var ds := spec.deviceSets[n - 1];
      var all := RegularSets(spec, n);
      forall a, b | 0 <= a < b < |all| ensures all[a].name != all[b].name {
        if |before| <= b && all[a].name == all[b].name {
          assert all[b].name == Numbered(ds.name, b - |before|);
          if a < |before| {
            var d, i := RegularNames(spec, n - 1, a);
            NumberedInjective(spec.deviceSets[d].name, i, ds.name, b - |before|);
          } else {
            NumberedInjective(ds.name, a - |before|, ds.name, b - |before|);
          }
        }
      }
    }
  }

  lemma DistinctNamesConcat(a: seq<OsdSet>, b: seq<OsdSet>)
    requires DistinctNames(a)
    ensures DistinctNames(a + b) <==> DistinctNames(b) && forall j :: 0 <= j < |b| ==> !Named(a, b[j].name)
  {
    var all := a + b;
    if DistinctNames(all) {
      forall j | 0 <= j < |b| ensures !Named(a, b[j].name) {
        forall i | 0 <= i < |a| ensures a[i].name != b[j].name {
          assert all[i].name != all[|a| + j].name;
        }
      }
      forall i, j | 0 <= i < j < |b| ensures b[i].name != b[j].name {
        assert all[|a| + i].name != all[|a| + j].name;
      }
    }
  }

  /** With the sets for non-resilient pools added the names stay distinct exactly when the
      failure-domain values are distinct and none of them is the name of a regular set. */
  lemma AllNamesDistinct(spec: Spec)
    requires DistinctDeviceSets(spec) && spec.nonResilient
    ensures DistinctNames(OsdSets(spec)) <==>
            && NoDuplicates(spec.failureDomainValues)
            && (forall v :: v in spec.failureDomainValues ==> !Named(Regular(spec), v))
  {
    var sets, values := NonResilient(spec), spec.failureDomainValues;
    RegularNamesDistinct(spec, |spec.deviceSets|);
    DistinctNamesConcat(Regular(spec), sets);
    assert forall i :: 0 <= i < |values| ==> sets[i].name == values[i];
    if DistinctNames(OsdSets(spec)) {
      forall v | v in values ensures !Named(Regular(spec), v) {
        var j :| 0 <= j < |values| && values[j] == v;
        assert sets[j].name == v;
      }
    }
  }

  // ----- detecting an expansion

  ghost predicate SameNamedGrew(found: seq<OsdSet>, desired: seq<OsdSet>)
  {
    exists i, j :: 0 <= i < |found| && 0 <= j < |desired| && found[i].name == desired[j].name &&
        desired[j].count > found[i].count
  }

  ghost predicate Detected(found: seq<OsdSet>, desired: seq<OsdSet>)
  {
    |found| < |desired| || (|found| == |desired| && SameNamedGrew(found, desired))
  }

  /** The comparison of the found and the desired sets in `ensureCreated`. */
  method IsExpanding(found: seq<OsdSet>, desired: seq<OsdSet>) returns (expanding: bool)
    ensures expanding == Detected(found, desired)
    ensures |found| < |desired| ==> expanding
    ensures |found| > |desired| ==> !expanding
    ensures |found| == |desired| ==>
              (expanding <==> exists i, j :: 0 <= i < |found| && 0 <= j < |desired| &&
                                             found[i].name == desired[j].name && found[i].count < desired[j].count)
  {
    expanding := false;
    if |found| < |desired| {
      expanding := true;
    } else if |found| == |desired| {
      for i := 0 to |found|
        invariant !expanding
        invariant forall k, j :: 0 <= k < i && 0 <= j < |desired| && found[k].name == desired[j].name ==>
                    desired[j].count <= found[k].count
      {
        for j := 0 to |desired|
          invariant !expanding
          invariant forall k :: 0 <= k < j && found[i].name == desired[k].name ==> desired[k].count <= found[i].count
        {
          if found[i].name == desired[j].name && desired[j].count > found[i].count {
            expanding := true;
            break;
          }
        }
        if expanding { break; }
      }
    }
  }

  ghost function Names(sets: seq<OsdSet>): set<string>
  {
    set i | 0 <= i < |sets| :: sets[i].name
  }

  lemma {:induction false} NamesSize(sets: seq<OsdSet>)
    requires DistinctNames(sets)
    ensures |Names(sets)| == |sets|
  {
    if sets == [] {
      assert Names(sets) == {};
    } else {
      var rest, last := sets[..|sets| - 1], sets[|sets| - 1];
      NamesSize(rest);
      assert Names(sets) == Names(rest) + {last.name};
      assert last.name !in Names(rest);
    }
  }

  function Without(sets: seq<OsdSet>, k: nat): seq<OsdSet>
    requires k < |sets|
  {
    sets[..k] + sets[k + 1..]
  }

  lemma {:induction false} TotalSplit(sets: seq<OsdSet>, k: nat)
    requires k < |sets|
    ensures Total(sets) == Total(sets[..k]) + sets[k].count + Total(sets[k + 1..])
  {
    var n := |sets| - 1;
    if k == n {
      assert sets[k + 1..] == [];
    } else {
      var front := sets[..n];
      TotalSplit(front, k);
      assert front[..k] == sets[..k];
      assert front[k + 1..] == sets[k + 1..][..n - k - 1];
    }
  }

  lemma TotalWithout(sets: seq<OsdSet>, k: nat)
    requires k < |sets|
    ensures Total(sets) == Total(Without(sets, k)) + sets[k].count
  {
    TotalSplit(sets, k);
    TotalConcat(sets[..k], sets[k + 1..]);
  }

  /** Sets of the same names none of which grew have no larger total. */
  lemma {:induction false} NoGrowthNoLargerTotal(found: seq<OsdSet>, desired: seq<OsdSet>)
    requires DistinctNames(found) && DistinctNames(desired)
    requires Names(found) == Names(desired) && !SameNamedGrew(found, desired)
    ensures Total(desired) <= Total(found)
    decreases |found|
  {
    if found == [] {
      NamesSize(found);
      NamesSize(desired);
    } else {
      var n := |found| - 1;
      assert found[n].name in Names(desired);
      var k :| 0 <= k < |desired| && desired[k].name == found[n].name;
      var rest, others := found[..n], Without(desired, k);
      WithoutNames(desired, k);
      assert Names(rest) == Names(found) - {found[n].name};
      NotGrownWithout(found, desired, n, k);
      NoGrowthNoLargerTotal(rest, others);
      TotalWithout(desired, k);
      assert desired[k].count <= found[n].count;
    }
  }

  lemma WithoutNames(sets: seq<OsdSet>, k: nat)
    requires k < |sets| && DistinctNames(sets)
    ensures DistinctNames(Without(sets, k)) && Names(Without(sets, k)) == Names(sets) - {sets[k].name}
  {
    var others := Without(sets, k);
    forall i | 0 <= i < |sets| && i != k ensures sets[i].name in Names(others) {
      assert sets[i] == others[if i < k then i else i - 1];
    }
  }

  lemma NotGrownWithout(found: seq<OsdSet>, desired: seq<OsdSet>, n: nat, k: nat)
    requires n == |found| - 1 && k < |desired| && !SameNamedGrew(found, desired)
    ensures !SameNamedGrew(found[..n], Without(desired, k))
  {
    var others := Without(desired, k);
    forall i, j | 0 <= i < n && 0 <= j < |others| && found[i].name == others[j].name
      ensures others[j].count <= found[i].count
    {
      assert others[j] == desired[if j < k then j else j + 1];
    }
  }

  /** Growth is not missed: when all found sets are still desired and the desired sets
      hold more OSDs, the comparison detects it. */
  lemma GrowthIsDetected(found: seq<OsdSet>, desired: seq<OsdSet>)
    requires DistinctNames(found) && DistinctNames(desired)
    requires Names(found) <= Names(desired)
    requires Total(desired) > Total(found)
    ensures Detected(found, desired)
  {
    NamesSize(found);
    NamesSize(desired);
    SubsetSize(Names(found), Names(desired));
    if |found| == |desired| && !SameNamedGrew(found, desired) {
      NoGrowthNoLargerTotal(found, desired);
    }
  }

  /** Nothing else is taken for growth: a set was added, or one of the same name grew. */
  lemma DetectionMeansGrowth(found: seq<OsdSet>, desired: seq<OsdSet>)
    requires DistinctNames(desired) && Detected(found, desired)
    ensures (exists name :: name in Names(desired) && name !in Names(found)) || SameNamedGrew(found, desired)
  {
    if |found| < |desired| && Names(desired) <= Names(found) {
      NamesSize(desired);
      SubsetSize(Names(desired), Names(found));
      NamesAtMost(found);
    }
  }

  lemma {:induction false} NamesAtMost(sets: seq<OsdSet>)
    ensures |Names(sets)| <= |sets|
  {
    if sets == [] {
      assert Names(sets) == {};
    } else {
      var rest, last := sets[..|sets| - 1], sets[|sets| - 1];
      NamesAtMost(rest);
      assert Names(sets) == Names(rest) + {last.name};
    }
  }

  function OneDeviceSet(ds: StorageDeviceSet): Spec
  {
    Spec("ocs", [ds], false, 0, false, "rack", "topology.rook.io/rack", [])
  }

  lemma OneDeviceSetGivesOne(ds: StorageDeviceSet)
    requires ds.replica == 1
    ensures OsdSets(OneDeviceSet(ds)) == [OsdSet(Numbered(ds.name, 0), ds.count, ClassOf(OneDeviceSet(ds), ds), None)]
  {
    var spec := OneDeviceSet(ds);
    assert RegularSets(spec, 0) == [];
    assert Regular(spec) == SetsOf(spec, ds, 1);
  }

  /** A device set that is replaced by a larger one of another name is not noticed: the OSD
      sets of the first spec are found, those of the second are desired. */
  lemma ReplacementIsMissed() returns (before: Spec, after: Spec)
    ensures DistinctDeviceSets(before) && DistinctDeviceSets(after)
    ensures Total(OsdSets(after)) > Total(OsdSets(before)) && !Detected(OsdSets(before), OsdSets(after))
  {
    var a, b := StorageDeviceSet("a", 1, 1, "", "ssd"), StorageDeviceSet("b", 2, 1, "", "ssd");
    before, after := OneDeviceSet(a), OneDeviceSet(b);
    OneDeviceSetGivesOne(a);
    OneDeviceSetGivesOne(b);
    OsdConservation(before);
    OsdConservation(after);
    assert SumOsds([a], 0) == 0 && SumOsds([b], 0) == 0;
    assert Numbered("a", 0)[0] == 'a' && Numbered("b", 0)[0] == 'b';
  }

  // ----- pools

  datatype BlockPool = BlockPool(name: string, deviceClass: string, failureDomain: string)

  datatype ConstrainedPool = ConstrainedPool(poolName: string, domainLabel: string, domainValue: string)

  function GenerateDeviceClass(spec: Spec): string
  {
    if spec.nonResilient then "replicated" else ""
  }

  function BlockPoolName(spec: Spec): string
  {
    spec.name + "-cephblockpool"
  }

  function NonResilientPoolName(spec: Spec, value: string): string
  {
    spec.name + "-cephblockpool-" + value
  }

  function NfsPoolName(spec: Spec): string
  {
    spec.name + "-cephnfs-builtin-pool"
  }

  function NonResilientPools(spec: Spec, n: nat): (pools: seq<BlockPool>)
    requires n <= |spec.failureDomainValues|
    ensures |pools| == n
  {
    seq(n, (i: int) requires 0 <= i < n =>
      var v := spec.failureDomainValues[i];
      BlockPool(NonResilientPoolName(spec, v), v, spec.failureDomain))
  }

  function BlockPools(spec: Spec): seq<BlockPool>
  {
    [BlockPool(BlockPoolName(spec), GenerateDeviceClass(spec), spec.failureDomain)] +
    (if spec.nonResilient then NonResilientPools(spec, |spec.failureDomainValues|) else []) +
    (if spec.nfs then [BlockPool(NfsPoolName(spec), GenerateDeviceClass(spec), spec.failureDomain)] else [])
  }

  method NewCephBlockPoolInstances(spec: Spec) returns (ret: seq<BlockPool>)
    ensures ret == BlockPools(spec)
  {
    ret := [BlockPool(BlockPoolName(spec), GenerateDeviceClass(spec), spec.failureDomain)];
    if spec.nonResilient {
      ghost var first := ret;
      for i := 0 to |spec.failureDomainValues|
        invariant ret == first + NonResilientPools(spec, i)
      {
        var v := spec.failureDomainValues[i];
        var pool := BlockPool(NonResilientPoolName(spec, v), v, spec.failureDomain);
        assert NonResilientPools(spec, i + 1) == NonResilientPools(spec, i) + [pool];
        ret := ret + [pool];
      }
    }
    if spec.nfs {
      ret := ret + [BlockPool(NfsPoolName(spec), GenerateDeviceClass(spec), spec.failureDomain)];
    }
  }

  function ConstrainedPools(spec: Spec, n: nat): (pools: seq<ConstrainedPool>)
    requires n <= |spec.failureDomainValues|
    ensures |pools| == n
  {
    var domain := if spec.failureDomain == "host" then "hostname" else spec.failureDomain;
    seq(n, (i: int) requires 0 <= i < n =>
      ConstrainedPool(NonResilientPoolName(spec, spec.failureDomainValues[i]), domain, spec.failureDomainValues[i]))
  }

  method GetTopologyConstrainedPools(spec: Spec) returns (pools: seq<ConstrainedPool>)
    ensures pools == ConstrainedPools(spec, |spec.failureDomainValues|)
  {
    pools := [];
    for i := 0 to |spec.failureDomainValues|
      invariant pools == ConstrainedPools(spec, i)
    {
      var failureDomain := spec.failureDomain;
      if failureDomain == "host" { failureDomain := "hostname"; }
      pools := pools + [ConstrainedPool(NonResilientPoolName(spec, spec.failureDomainValues[i]), failureDomain,
                                        spec.failureDomainValues[i])];
    }
  }

  lemma {:induction false} RegularClass(spec: Spec, n: nat)
    requires n <= |spec.deviceSets| && spec.nonResilient
    ensures forall k :: 0 <= k < |RegularSets(spec, n)| ==>
              RegularSets(spec, n)[k].crushDeviceClass == "replicated" && RegularSets(spec, n)[k].pin == None
  {
    if n > 0 {
      RegularClass(spec, n - 1);
    }
  }

  /** The class of a pool decides which OSD sets it may use. With distinct values, none of
      them "replicated", the pool of a value may use the set of that value and no other,
      and the main and the NFS pool may use exactly the regular sets. The topology entry of
      the value names that pool, and the set is pinned to the value of the entry. All pools spread over the failure
      domain of the cluster, and the entry names it too, as "hostname" if it is "host". */
  lemma PoolsUseTheirSets(spec: Spec, p: nat, s: nat)
    requires spec.nonResilient && NoDuplicates(spec.failureDomainValues)
    requires "replicated" !in spec.failureDomainValues
    requires p < |BlockPools(spec)| && s < |OsdSets(spec)|
    ensures var own := 1 <= p <= |spec.failureDomainValues|;
            BlockPools(spec)[p].deviceClass == OsdSets(spec)[s].crushDeviceClass <==>
              if own then s == |Regular(spec)| + p - 1 else s < |Regular(spec)|
    ensures 1 <= p <= |spec.failureDomainValues| &&
            BlockPools(spec)[p].deviceClass == OsdSets(spec)[s].crushDeviceClass ==>
              var entry := ConstrainedPools(spec, |spec.failureDomainValues|)[p - 1];
              && entry.poolName == BlockPools(spec)[p].name
              && OsdSets(spec)[s].pin == Some(Pin(spec.failureDomainKey, entry.domainValue))
              && entry.domainLabel == (if spec.failureDomain == "host" then "hostname" else spec.failureDomain)
    ensures BlockPools(spec)[p].failureDomain == spec.failureDomain
  {
    RegularClass(spec, |spec.deviceSets|);
    var values, regular := spec.failureDomainValues, Regular(spec);
    if s >= |regular| {
      assert OsdSets(spec)[s].crushDeviceClass == values[s - |regular|];
      assert values[s - |regular|] in values;
    }
    if 1 <= p <= |values| {
      assert BlockPools(spec)[p].deviceClass == values[p - 1];
      assert values[p - 1] in values;
    }
  }

  /** Without non-resilient pools there is the main pool and, if asked for, the NFS pool;
      both spread over the failure domain and may use the sets of any class. */
  lemma PlainPools(spec: Spec)
    requires !spec.nonResilient
    ensures |BlockPools(spec)| == if spec.nfs then 2 else 1
    ensures forall p :: 0 <= p < |BlockPools(spec)| ==>
              BlockPools(spec)[p].deviceClass == "" && BlockPools(spec)[p].failureDomain == spec.failureDomain
    ensures BlockPools(spec)[0].name == spec.name + "-cephblockpool"
    ensures spec.nfs ==> BlockPools(spec)[1].name == spec.name + "-cephnfs-builtin-pool"
  {
  }

  /** A pool of a failure-domain value has a name of its own. */
  lemma PoolNameOfValue(spec: Spec, v: string, w: string)
    ensures NonResilientPoolName(spec, v) == NonResilientPoolName(spec, w) <==> v == w
    ensures NonResilientPoolName(spec, v) != BlockPoolName(spec)
    ensures NonResilientPoolName(spec, v) != NfsPoolName(spec)
  {
    var prefix := spec.name + "-cephblockpool-";
    assert v == NonResilientPoolName(spec, v)[|prefix|..] && w == NonResilientPoolName(spec, w)[|prefix|..];
    assert |NonResilientPoolName(spec, v)| > |BlockPoolName(spec)|;
    assert NonResilientPoolName(spec, v)[|spec.name| + 5] == 'b';
    assert NfsPoolName(spec)[|spec.name| + 5] == 'n';
  }

  lemma MainAndNfsPoolNames(spec: Spec)
    ensures BlockPoolName(spec) != NfsPoolName(spec)
  {
    assert BlockPoolName(spec)[|spec.name| + 5] == 'b';
    assert NfsPoolName(spec)[|spec.name| + 5] == 'n';
  }

  ghost predicate DistinctPoolNames(pools: seq<BlockPool>)
  {
    forall a, b :: 0 <= a < b < |pools| ==> pools[a].name != pools[b].name
  }

  lemma PoolNamesDiffer(spec: Spec, a: nat, b: nat)
    requires spec.nonResilient && NoDuplicates(spec.failureDomainValues) && a < b < |BlockPools(spec)|
    ensures BlockPools(spec)[a].name != BlockPools(spec)[b].name
  {
    var values := spec.failureDomainValues;
    var n := |values|;
    MainAndNfsPoolNames(spec);
    if 1 <= b <= n {
      PoolNameOfValue(spec, values[b - 1], if a >= 1 then values[a - 1] else values[b - 1]);
    } else if a >= 1 {
      PoolNameOfValue(spec, values[a - 1], values[a - 1]);
    }
  }

  /** Pool names are distinct exactly when the failure-domain values are. */
  lemma PoolNamesDistinct(spec: Spec)
    requires spec.nonResilient
    ensures DistinctPoolNames(BlockPools(spec)) <==> NoDuplicates(spec.failureDomainValues)
  {
    var pools, values := BlockPools(spec), spec.failureDomainValues;
    if NoDuplicates(values) {
      forall a, b | 0 <= a < b < |pools| ensures pools[a].name != pools[b].name {
        PoolNamesDiffer(spec, a, b);
      }
    }
    if DistinctPoolNames(pools) {
      forall i, j | 0 <= i < j < |values| ensures values[i] != values[j] {
        assert pools[1 + i].name == NonResilientPoolName(spec, values[i]);
        assert pools[1 + j].name == NonResilientPoolName(spec, values[j]);
      }
    }
  }
}
