/** The StorageClusters of the API server, the snapshot a reconcile takes of them, and
    the questions it asks about the snapshot. */
module Clusters {
  import opened Collections
  import opened Text

  datatype Phase =
    | Empty | Ignored | Progressing | Error | Ready | NotReady
    | Expanding | Deleting | Connecting | Onboarding

  datatype StorageCluster = StorageCluster(
    namespace: string, name: string, external: bool, created: int, deleting: bool, phase: Phase)
  {
    function Key(): (string, string) { (namespace, name) }

    /** Past the election: neither waiting for it nor out of it. */
    predicate Live() { phase != Empty && phase != Ignored }
  }

  /** Stored clusters by namespace and name. */
  type Stored = map<(string, string), StorageCluster>

  ghost predicate Keyed(stored: Stored)
  {
    forall key :: key in stored ==> stored[key].Key() == key
  }

  /** Which of the stored clusters a list is about. */
  datatype Selection = All | Internal | External | InNamespace(namespace: string)
  {
    predicate Picks(c: StorageCluster)
    {
      match this
      case All => true
      case Internal => !c.external
      case External => c.external
      case InNamespace(n) => c.namespace == n
    }
  }

  /** Every selected stored cluster is in the list once, and nothing else is. */
  ghost predicate Lists(list: seq<StorageCluster>, stored: Stored, which: Selection)
  {
    && NoDuplicates(list)
    && (forall c :: c in list <==> c.Key() in stored && stored[c.Key()] == c && which.Picks(c))
  }

  // ----- sorting by namespace and name

  predicate KeyLess(a: StorageCluster, b: StorageCluster)
  {
    Less(a.namespace, b.namespace) || (a.namespace == b.namespace && Less(a.name, b.name))
  }

  ghost predicate KeySorted(list: seq<StorageCluster>)
  {
    forall i, j :: 0 <= i < j < |list| ==> !KeyLess(list[j], list[i])
  }

  lemma KeyLessTransitive(a: StorageCluster, b: StorageCluster, c: StorageCluster)
    requires KeyLess(a, b) && KeyLess(b, c)
    ensures KeyLess(a, c)
  {
    if Less(a.namespace, b.namespace) {
      if Less(b.namespace, c.namespace) { LessTransitive(a.namespace, b.namespace, c.namespace); }
    } else if b.namespace == c.namespace {
      LessTransitive(a.name, b.name, c.name);
    }
  }

  lemma KeyLessIrreflexive(a: StorageCluster)
    ensures !KeyLess(a, a)
  {
    LessIrreflexive(a.namespace);
    LessIrreflexive(a.name);
  }

  function Insert(x: StorageCluster, list: seq<StorageCluster>): (r: seq<StorageCluster>)
    requires KeySorted(list)
    ensures KeySorted(r) && multiset(r) == multiset(list) + multiset{x}
  {
    if list == [] then [x]
    else if KeyLess(x, list[0]) then
      InsertFirst(x, list);
      [x] + list
    else
      var rest := Insert(x, list[1..]);
      InsertLater(x, list, rest);
      [list[0]] + rest
  }

  lemma InsertFirst(x: StorageCluster, list: seq<StorageCluster>)
    requires list != [] && KeySorted(list) && KeyLess(x, list[0])
    ensures KeySorted([x] + list) && multiset([x] + list) == multiset(list) + multiset{x}
  {
    forall j | 0 <= j < |list| ensures !KeyLess(list[j], x) {
      if KeyLess(list[j], x) {
        KeyLessTransitive(list[j], x, list[0]);
        KeyLessIrreflexive(list[0]);
      }
    }
  }

  lemma InsertLater(x: StorageCluster, list: seq<StorageCluster>, rest: seq<StorageCluster>)
    requires list != [] && KeySorted(list) && !KeyLess(x, list[0])
    requires KeySorted(rest) && multiset(rest) == multiset(list[1..]) + multiset{x}
    ensures KeySorted([list[0]] + rest)
    ensures multiset([list[0]] + rest) == multiset(list) + multiset{x}
  {
    assert list == [list[0]] + list[1..];
    forall j | 0 <= j < |rest| ensures !KeyLess(rest[j], list[0]) {
      assert rest[j] in multiset(rest);
      assert rest[j] == x || rest[j] in list[1..];
    }
  }

  /** `sort.Slice` by namespace and name. */
  function SortByKey(list: seq<StorageCluster>): (r: seq<StorageCluster>)
    ensures KeySorted(r) && multiset(r) == multiset(list)
  {
    if list == [] then [] else
      assert list == [list[0]] + list[1..];
      Insert(list[0], SortByKey(list[1..]))
  }

  lemma SortKeepsListing(list: seq<StorageCluster>, stored: Stored, which: Selection)
    requires Lists(list, stored, which)
    ensures Lists(SortByKey(list), stored, which)
  {
    var r := SortByKey(list);
    forall c ensures c in r <==> c in list {
      assert c in multiset(r) <==> c in r;
      assert c in multiset(list) <==> c in list;
    }
    forall i, j | 0 <= i < j < |r| ensures r[i] != r[j] {
      if r[i] == r[j] {
        RepeatedCountsTwice(r, i, j);
        NoDuplicatesCount(list, r[i]);
      }
    }
  }

  // ----- the snapshot

  /** The loop of `GetClusters`. */
  method SplitByKind(items: seq<StorageCluster>, ghost stored: Stored)
    returns (inside: seq<StorageCluster>, outside: seq<StorageCluster>, called: seq<string>)
    requires Keyed(stored) && Lists(items, stored, All)
    ensures Lists(inside, stored, Internal) && Lists(outside, stored, External)
    ensures |called| == |items| && forall k :: 0 <= k < |items| ==> called[k] == items[k].name
  {
    inside, outside, called := [], [], [];
    for i := 0 to |items|
      invariant |called| == i && forall k :: 0 <= k < i ==> called[k] == items[k].name
      invariant NoDuplicates(inside) && NoDuplicates(outside)
      invariant forall c :: c in inside <==> c in items[..i] && !c.external
      invariant forall c :: c in outside <==> c in items[..i] && c.external
    {
      assert items[..i + 1] == items[..i] + [items[i]];
      assert items[i] !in items[..i];
      called := called + [items[i].name];
      if !items[i].external {
        inside := inside + [items[i]];
      } else {
        outside := outside + [items[i]];
      }
    }
    assert items[..|items|] == items;
  }

  class Snapshot {
    var internalStorageClusters: seq<StorageCluster>
    var externalStorageClusters: seq<StorageCluster>
    var names: seq<string>

    /** The snapshot shows exactly the stored clusters. */
    ghost predicate Shows(stored: Stored)
      reads this
    {
      && Keyed(stored)
      && Lists(internalStorageClusters, stored, Internal)
      && Lists(externalStorageClusters, stored, External)
      && (forall name :: multiset(names)[name] > 1 <==> SameName(stored, name))
    }

    /** `GetClusters`, from the API server's list, in whatever order it comes. */
    constructor (items: seq<StorageCluster>, ghost stored: Stored)
      requires Keyed(stored) && Lists(items, stored, All)
      ensures Shows(stored)
      ensures KeySorted(internalStorageClusters) && KeySorted(externalStorageClusters) && Sorted(names)
    {
      var inside, outside, called := SplitByKind(items, stored);
      internalStorageClusters := SortByKey(inside);
      externalStorageClusters := SortByKey(outside);
      names := SortStrings(called);
      SortKeepsListing(inside, stored, Internal);
      SortKeepsListing(outside, stored, External);
      forall name ensures multiset(called)[name] > 1 <==> SameName(stored, name) {
        NamesCounted(items, stored, called, name);
      }
    }

    method HasMultipleStorageClustersWithSameName(name: string, ghost stored: Stored) returns (many: bool)
      requires Shows(stored)
      ensures many == SameName(stored, name)
    {
      var count := 0;
      for i := 0 to |names|
        invariant count == multiset(names[..i])[name]
      {
        assert names[..i + 1] == names[..i] + [names[i]];
        if names[i] == name { count := count + 1; }
      }
      assert names[..|names|] == names;
      return count > 1;
    }

    method GetStorageClustersInNamespace(namespace: string, ghost stored: Stored) returns (list: seq<StorageCluster>)
      requires Shows(stored)
      ensures Lists(list, stored, InNamespace(namespace))
    {
      list := [];
      var all := internalStorageClusters + externalStorageClusters;
      forall i, j | 0 <= i < j < |all| ensures all[i] != all[j] {
        if i < |internalStorageClusters| <= j {
          assert all[i] in internalStorageClusters && all[j] in externalStorageClusters;
        }
      }
      for i := 0 to |all|
        invariant NoDuplicates(list)
        invariant forall c :: c in list <==> c in all[..i] && c.namespace == namespace
      {
        assert all[..i + 1] == all[..i] + [all[i]];
        assert all[i] !in all[..i];
        if all[i].namespace == namespace {
          list := list + [all[i]];
        }
      }
      assert all[..|all|] == all;
    }

    /** Every cluster of another name and another namespace is Ready. */
    method AreOtherStorageClustersReady(instance: StorageCluster, ghost stored: Stored) returns (ready: bool)
      requires Shows(stored)
      ensures ready == OthersReady(stored, instance)
    {
      var all := internalStorageClusters + externalStorageClusters;
      for i := 0 to |all|
        invariant forall c :: c in all[..i] && c.name != instance.name && c.namespace != instance.namespace ==>
                    c.phase == Ready
      {
        assert all[..i + 1] == all[..i] + [all[i]];
        if all[i].name != instance.name && all[i].namespace != instance.namespace {
          if all[i].phase != Ready {
            assert all[i] in all;
            assert stored[all[i].Key()] == all[i];
            return false;
          }
        }
      }
      assert all[..|all|] == all;
      forall key | key in stored && stored[key].name != instance.name && stored[key].namespace != instance.namespace
        ensures stored[key].phase == Ready
      {
        assert stored[key] in all;
      }
      return true;
    }
  }

  /** Two stored clusters have this name. */
  ghost predicate SameName(stored: Stored, name: string)
  {
    exists a, b :: a in stored && b in stored && a != b && stored[a].name == name && stored[b].name == name
  }

  ghost predicate OthersReady(stored: Stored, instance: StorageCluster)
  {
    forall key :: key in stored && stored[key].name != instance.name && stored[key].namespace != instance.namespace ==>
                    stored[key].phase == Ready
  }

  lemma NamesCounted(items: seq<StorageCluster>, stored: Stored, called: seq<string>, name: string)
    requires Keyed(stored) && Lists(items, stored, All)
    requires |called| == |items| && forall k :: 0 <= k < |items| ==> called[k] == items[k].name
    ensures multiset(called)[name] > 1 <==> SameName(stored, name)
  {
    if multiset(called)[name] > 1 {
      CountedTwice(called, name);
      var i, j :| 0 <= i < j < |called| && called[i] == name && called[j] == name;
      assert items[i] in items && items[j] in items && items[i] != items[j];
      assert stored[items[i].Key()].name == name && stored[items[j].Key()].name == name;
    }
    if SameName(stored, name) {
      var a, b :| a in stored && b in stored && a != b && stored[a].name == name && stored[b].name == name;
      assert stored[a] in items && stored[b] in items;
      var i :| 0 <= i < |items| && items[i] == stored[a];
      var j :| 0 <= j < |items| && items[j] == stored[b];
      if i < j { RepeatedCountsTwice(called, i, j); } else { RepeatedCountsTwice(called, j, i); }
    }
  }
}
