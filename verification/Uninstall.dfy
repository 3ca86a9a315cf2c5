/** Tearing a StorageCluster down: the ordered resource managers, and the finalizer that
    goes only after all of them are through. Every call to the API server may fail, and
    between two calls the owners of marked objects may let them go. */
module Uninstall {
  import opened Collections

  datatype Kind =
    | NooBaaKind | StorageClientKind | ProviderKind | RouteKind | ObjectStoreUserKind | ObjectStoreKind
    | RbdMirrorKind | NfsKind | NfsServiceKind | SubvolumeGroupKind | FilesystemKind | BlockPoolKind
    | SnapshotClassKind | QuotaKind | StorageClassKind | CephClusterKind | ClusterClaimKind | BackingClassKind

  datatype Key = Key(kind: Kind, name: string)

  datatype Object = Object(marked: bool, owned: bool)

  datatype Reply = Found(item: Object) | Missing | CallFailed

  /** What a run does and learns. `who` is the position of the manager, -1 before the
      managers start. */
  datatype Event =
    | Issued(who: int, key: Key)
    | Saw(who: int, key: Key, marked: bool)
    | Gone(who: int, key: Key)
    | NotOwned(who: int)
    | VolumesGone(who: int)
    | ConsumersGone(who: int)

  class Api {
    var objects: map<Key, Object>
    var consumers: nat
    var noobaaVolumes: nat
    ghost var trace: seq<Event>
    /** Some call has failed. */
    ghost var faulty: bool

    /** Owners of marked objects may have finished in the meantime. */
    method Progress()
      modifies this`objects
      ensures objects.Keys <= old(objects).Keys
      ensures forall key :: key in objects ==> objects[key] == old(objects)[key]
    {
      var finished: set<Key> := {};
      var todo := objects.Keys;
      while todo != {}
        decreases todo
      {
        var key :| key in todo;
        todo := todo - {key};
        var done := *;
        if done && key in objects && objects[key].marked { finished := finished + {key}; }
      }
      objects := objects - finished;
    }

    method Get(who: int, key: Key) returns (reply: Reply)
      modifies this`objects, this`trace, this`faulty
      ensures objects.Keys <= old(objects).Keys
      ensures forall k :: k in objects ==> objects[k] == old(objects)[k]
      ensures reply.Found? ==> key in objects && reply.item == objects[key]
      ensures reply.Missing? ==> key !in objects
      ensures trace == old(trace) + match reply
                                    case Found(item) => [Saw(who, key, item.marked)]
                                    case Missing => [Gone(who, key)]
                                    case CallFailed => []
      ensures faulty == (old(faulty) || reply.CallFailed?)
    {
      Progress();
      var fails := *;
      if fails {
        faulty := true;
        return CallFailed;
      }
      if key !in objects {
        trace := trace + [Gone(who, key)];
        return Missing;
      }
      trace := trace + [Saw(who, key, objects[key].marked)];
      return Found(objects[key]);
    }

    /** Marks the object or, when nothing holds it, removes it. */
    method Delete(who: int, key: Key) returns (reply: Reply)
      modifies this`objects, this`trace, this`faulty
      ensures objects.Keys <= old(objects).Keys
      ensures trace == old(trace) + [Issued(who, key)]
      ensures faulty == (old(faulty) || reply.CallFailed?)
    {
      Progress();
      trace := trace + [Issued(who, key)];
      var fails := *;
      if fails {
        faulty := true;
        return CallFailed;
      }
      if key !in objects { return Missing; }
      var held := *;
      reply := Found(objects[key]);
      if held {
        objects := objects[key := objects[key].(marked := true)];
      } else {
        objects := objects - {key};
      }
    }

    method ListConsumers(who: int) returns (reply: Option<nat>)
      modifies this`trace, this`faulty
      ensures reply.Some? ==> reply.value == consumers
      ensures trace == old(trace) + if reply == Some(0) then [ConsumersGone(who)] else []
      ensures faulty == (old(faulty) || reply.None?)
    {
      var fails := *;
      if fails {
        faulty := true;
        return None;
      }
      if consumers == 0 { trace := trace + [ConsumersGone(who)]; }
      return Some(consumers);
    }

    method ListNoobaaVolumes(who: int) returns (reply: Option<nat>)
      modifies this`trace, this`faulty
      ensures reply.Some? ==> reply.value == noobaaVolumes
      ensures trace == old(trace) + if reply == Some(0) then [VolumesGone(who)] else []
      ensures faulty == (old(faulty) || reply.None?)
    {
      var fails := *;
      if fails {
        faulty := true;
        return None;
      }
      if noobaaVolumes == 0 { trace := trace + [VolumesGone(who)]; }
      return Some(noobaaVolumes);
    }
  }

  // ----- the managers

  /** How a manager that does not wait deletes: `Direct` stops at the first error,
      `CollectErrors` reports errors at the end, `BestEffort` looks first and ignores all
      errors, `Existing` looks first and stops at an error of the deletion, and of the
      look if asked to. */
  datatype Mode = Direct | CollectErrors | BestEffort | Existing(strict: bool)

  function FilesystemKey(name: string): Key { Key(FilesystemKind, name) }

  /** The default subvolume group of a filesystem. */
  function GroupKey(name: string): Key { Key(SubvolumeGroupKind, name + "-csi") }

  datatype Manager =
    | Nothing
    | Noobaa(key: Key, elsewhere: bool, ignored: bool)
    | Provider(keys: seq<Key>)
    | Fire(keys: seq<Key>, mode: Mode)
    | Wait(keys: seq<Key>, skipMarked: bool)
    | Filesystems(names: seq<string>, keepGroups: bool)

  /** The parts of the StorageCluster that the uninstall looks at. */
  datatype Spec = Spec(
    cephCluster: Key, noobaa: Key, inOperatorNamespace: bool, noobaaIgnored: bool, routesDisabled: bool,
    remoteConsumers: bool,
    client: Key, provider: seq<Key>, routes: seq<Key>, users: seq<Key>, stores: seq<Key>, mirrors: seq<Key>,
    nfs: seq<Key>, nfsServices: seq<Key>, filesystems: seq<string>, pools: seq<Key>,
    snapshotClasses: seq<Key>, quotas: seq<Key>, storageClasses: seq<Key>, claims: seq<Key>, backing: seq<Key>)

  /** The managers in the order of the source. */
  function Managers(spec: Spec): seq<Manager>
  {
    [ Nothing,
      Noobaa(spec.noobaa, !spec.inOperatorNamespace, spec.noobaaIgnored),
      Fire([spec.client], Direct),
      Provider(spec.provider),
      if spec.routesDisabled then Nothing else Wait(spec.routes, false),
      Wait(spec.users, false),
      Wait(spec.stores, false),
      Fire(spec.mirrors, Existing(true)),
      Wait(spec.nfs, false),
      Wait(spec.nfsServices, false),
      Filesystems(spec.filesystems, spec.remoteConsumers),
      Wait(spec.pools, false),
      Fire(spec.snapshotClasses, BestEffort),
      Fire(spec.quotas, Existing(false)),
      Fire(spec.storageClasses, BestEffort),
      Wait([spec.cephCluster], true),
      Fire(spec.claims, Direct),
      Fire(spec.backing, CollectErrors) ]
  }

  ghost predicate Owns(m: Manager, key: Key)
  {
    match m
    case Nothing => false
    case Noobaa(k, _, _) => key == k
    case Provider(keys) => key in keys
    case Fire(keys, _) => key in keys
    case Wait(keys, _) => key in keys
    case Filesystems(fs, keepGroups) =>
      exists i :: 0 <= i < |fs| && (key == FilesystemKey(fs[i]) || (!keepGroups && key == GroupKey(fs[i])))
  }

  /** What must have been seen before the managers after this one may start. */
  ghost predicate Cleared(who: int, m: Manager, trace: seq<Event>)
  {
    match m
    case Nothing => true
    case Noobaa(key, elsewhere, ignored) =>
      elsewhere || ignored || NotOwned(who) in trace || (Gone(who, key) in trace && VolumesGone(who) in trace)
    case Provider(keys) => ConsumersGone(who) in trace
    case Fire(keys, _) => true
    case Wait(keys, _) => forall i :: 0 <= i < |keys| ==> Gone(who, keys[i]) in trace
    case Filesystems(fs, _) => forall i :: 0 <= i < |fs| ==> Gone(who, FilesystemKey(fs[i])) in trace
  }

  /** What a manager has waited for is no longer there: its objects, the StorageConsumers,
      and NooBaa with its volumes unless NooBaa was to be left alone. */
  ghost predicate Absent(who: int, m: Manager, objects: map<Key, Object>, consumers: nat, volumes: nat,
                         trace: seq<Event>)
  {
    match m
    case Wait(keys, _) => forall i :: 0 <= i < |keys| ==> keys[i] !in objects
    case Filesystems(fs, _) => forall i :: 0 <= i < |fs| ==> FilesystemKey(fs[i]) !in objects
    case Provider(_) => consumers == 0
    case Noobaa(key, elsewhere, ignored) =>
      elsewhere || ignored || NotOwned(who) in trace || (key !in objects && volumes == 0)
    case _ => true
  }

  ghost predicate Through(who: int, m: Manager, objects: map<Key, Object>, consumers: nat, volumes: nat,
                          trace: seq<Event>)
  {
    Cleared(who, m, trace) && Absent(who, m, objects, consumers, volumes, trace)
  }

  /** What may keep a manager from being through without any failed call: an object of its
      own that was still stored, a StorageConsumer, or a volume of NooBaa. */
  ghost predicate Blocking(m: Manager, objects: map<Key, Object>, consumers: nat, volumes: nat)
  {
    (exists key :: Owns(m, key) && key in objects) || (m.Provider? && consumers > 0) || (m.Noobaa? && volumes > 0)
  }

  /** An object that is asked to go, or that is marked already where marks are respected. */
  ghost predicate Asked(who: int, key: Key, skipMarked: bool, events: seq<Event>)
  {
    Issued(who, key) in events || (skipMarked && Saw(who, key, true) in events)
  }

  /** What a manager that stops the run without a failed call has done about it. The first
      object that it waits for and that is left was asked to go; for a filesystem that may be
      its group instead. StorageConsumers and volumes are waited for without being deleted. A
      manager that does not wait stops only at an object that went by itself between the look
      at it and the deletion. */
  ghost predicate Pressed(who: int, m: Manager, events: seq<Event>, consumers: nat, volumes: nat)
  {
    match m
    case Nothing => false
    case Noobaa(key, _, _) => Asked(who, key, true, events) || (Gone(who, key) in events && volumes > 0)
    case Provider(_) => consumers > 0
    case Fire(keys, mode) => mode.Existing? && exists i :: 0 <= i < |keys| && Issued(who, keys[i]) in events
    case Wait(keys, skipMarked) => exists i :: 0 <= i < |keys| && PressedAt(who, keys, skipMarked, events, i)
    case Filesystems(fs, keepGroups) => exists i :: 0 <= i < |fs| && GroupPressedAt(who, fs, keepGroups, events, i)
  }

  ghost predicate PressedAt(who: int, keys: seq<Key>, skipMarked: bool, events: seq<Event>, i: nat)
    requires i < |keys|
  {
    (forall k :: 0 <= k < i ==> Gone(who, keys[k]) in events) && Asked(who, keys[i], skipMarked, events)
  }

  ghost predicate GroupPressedAt(who: int, fs: seq<string>, keepGroups: bool, events: seq<Event>, i: nat)
    requires i < |fs|
  {
    && (forall k :: 0 <= k < i ==> Gone(who, FilesystemKey(fs[k])) in events)
    && (Issued(who, FilesystemKey(fs[i])) in events || (!keepGroups && Asked(who, GroupKey(fs[i]), true, events)))
  }

  /** What a manager that does not wait has done when it is through without a failed call:
      every object was asked to go, or was looked at and found missing, or found marked by
      the managers that respect marks. */
  ghost predicate Handled(who: int, m: Manager, events: seq<Event>)
  {
    match m
    case Provider(keys) => forall i :: 0 <= i < |keys| ==> Issued(who, keys[i]) in events
    case Fire(keys, mode) => forall i :: 0 <= i < |keys| ==> Fired(who, keys[i], mode, events)
    case _ => true
  }

  ghost predicate Fired(who: int, key: Key, mode: Mode, events: seq<Event>)
  {
    || Issued(who, key) in events
    || ((mode.BestEffort? || mode.Existing?) && Gone(who, key) in events)
    || (mode.BestEffort? && Saw(who, key, true) in events)
  }

  lemma HandledStays(who: int, m: Manager, a: seq<Event>, b: seq<Event>)
    requires Handled(who, m, a) && forall e :: e in a ==> e in b
    ensures Handled(who, m, b)
  {
  }

  lemma PressedStays(who: int, m: Manager, a: seq<Event>, b: seq<Event>, consumers: nat, volumes: nat)
    requires Pressed(who, m, a, consumers, volumes) && forall e :: e in a ==> e in b
    ensures Pressed(who, m, b, consumers, volumes)
  {
    match m {
      case Fire(keys, _) =>
        var i :| 0 <= i < |keys| && Issued(who, keys[i]) in a;
        assert Issued(who, keys[i]) in b;
      case Wait(keys, skipMarked) =>
        var i :| 0 <= i < |keys| && PressedAt(who, keys, skipMarked, a, i);
        assert PressedAt(who, keys, skipMarked, b, i);
      case Filesystems(fs, keepGroups) =>
        var i :| 0 <= i < |fs| && GroupPressedAt(who, fs, keepGroups, a, i);
        assert GroupPressedAt(who, fs, keepGroups, b, i);
      case _ =>
    }
  }

  /** All events of one manager: it deletes only its own objects. */
  ghost predicate OwnEvents(who: int, m: Manager, events: seq<Event>)
  {
    forall i :: 0 <= i < |events| ==> events[i].who == who && (events[i].Issued? ==> Owns(m, events[i].key))
  }

  /** The trace was extended by events of one manager. */
  ghost predicate Extended(who: int, m: Manager, before: seq<Event>, after: seq<Event>)
  {
    |before| <= |after| && after[..|before|] == before && OwnEvents(who, m, after[|before|..])
  }

  lemma ExtendedAgain(who: int, m: Manager, a: seq<Event>, b: seq<Event>, c: seq<Event>)
    requires Extended(who, m, a, b) && Extended(who, m, b, c)
    ensures Extended(who, m, a, c)
    ensures forall e :: e in b[|a|..] || e in c[|b|..] ==> e in c[|a|..]
  {
    assert c[..|a|] == c[..|b|][..|a|];
    assert c[|a|..] == b[|a|..] + c[|b|..] by {
      assert c == b + c[|b|..];
    }
  }

  /** In these events of one manager an object that was found was asked to go, unless it
      was marked and marks are respected; nothing else was asked to go. */
  ghost predicate AskedIffFound(who: int, key: Key, skipMarked: bool, events: seq<Event>)
  {
    && (Issued(who, key) in events <==>
          Saw(who, key, false) in events || (!skipMarked && Saw(who, key, true) in events))
    && forall i :: 0 <= i < |events| && events[i].Issued? ==> events[i].key == key
  }

  lemma LookedAndAsked(who: int, m: Manager, key: Key, skipMarked: bool, marked: bool, last: seq<Event>)
    requires Owns(m, key)
    requires |last| == 0 || last == [Gone(who, key)] || last == [Saw(who, key, true)] || last == [Saw(who, key, false)]
    requires skipMarked && marked ==> Saw(who, key, false) !in last
    ensures var asked := if skipMarked && marked then [] else [Issued(who, key)];
            var events := [Saw(who, key, marked)] + asked + last;
            OwnEvents(who, m, events) && AskedIffFound(who, key, skipMarked, events) && Saw(who, key, marked) in events
  {
    var asked := if skipMarked && marked then [] else [Issued(who, key)];
    var events := [Saw(who, key, marked)] + asked + last;
    assert events[0] == Saw(who, key, marked);
    assert asked != [] ==> events[1] == Issued(who, key);
    assert forall i :: |asked| < i < |events| ==> events[i] == last[i - |asked| - 1];
  }

  lemma AddedPart(start: seq<Event>, seen: seq<Event>, last: seq<Event>)
    ensures (start + seen + last)[|start|..] == seen + last && (start + seen + last)[..|start|] == start
    ensures start + seen + [] == start + seen
  {
  }

  /** Delete one object and see that it is gone. Most managers issue the deletion even for
      an object that is already marked. */
  method DeleteAndWait(api: Api, who: int, ghost m: Manager, key: Key, skipMarked: bool) returns (ok: bool)
    requires Owns(m, key)
    modifies api`objects, api`trace, api`faulty
    ensures api.objects.Keys <= old(api.objects).Keys
    ensures Extended(who, m, old(api.trace), api.trace)
    ensures AskedIffFound(who, key, skipMarked, api.trace[|old(api.trace)|..])
    ensures ok ==> Gone(who, key) in api.trace[|old(api.trace)|..] && key !in api.objects
    ensures old(api.faulty) ==> api.faulty
    ensures !ok && !api.faulty ==> key in old(api.objects)
    ensures !ok && !api.faulty ==>
              || Saw(who, key, false) in api.trace[|old(api.trace)|..]
              || Saw(who, key, true) in api.trace[|old(api.trace)|..]
  {
    ghost var start := api.trace;
    var reply := api.Get(who, key);
    if reply.Missing? { return true; }
    if reply.CallFailed? { return false; }
    ghost var marked := reply.item.marked;
    ghost var seen := [Saw(who, key, marked)] + if skipMarked && marked then [] else [Issued(who, key)];
    if !(skipMarked && reply.item.marked) {
      reply := api.Delete(who, key);
      assert api.trace == start + seen;
      if !reply.Found? {
        LookedAndAsked(who, m, key, skipMarked, marked, []);
        AddedPart(start, seen, []);
        return false;
      }
    }
    assert api.trace == start + seen;
    reply := api.Get(who, key);
    ghost var last := api.trace[|start + seen|..];
    LookedAndAsked(who, m, key, skipMarked, marked, last);
    AddedPart(start, seen, last);
    return reply.Missing?;
  }

  method WaitForAll(api: Api, who: int, keys: seq<Key>, skipMarked: bool) returns (ok: bool)
    modifies api`objects, api`trace, api`faulty
    ensures api.objects.Keys <= old(api.objects).Keys
    ensures Extended(who, Wait(keys, skipMarked), old(api.trace), api.trace)
    ensures ok ==> Through(who, Wait(keys, skipMarked), api.objects, api.consumers, api.noobaaVolumes, api.trace)
    ensures old(api.faulty) ==> api.faulty
    ensures !ok && !api.faulty ==> Blocking(Wait(keys, skipMarked), old(api.objects), api.consumers, api.noobaaVolumes)
    ensures !ok && !api.faulty ==>
              exists i :: 0 <= i < |keys| && PressedAt(who, keys, skipMarked, api.trace[|old(api.trace)|..], i)
  {
    ghost var start := api.trace;
    for i := 0 to |keys|
      invariant api.objects.Keys <= old(api.objects).Keys
      invariant Extended(who, Wait(keys, skipMarked), start, api.trace)
      invariant forall k :: 0 <= k < i ==> Gone(who, keys[k]) in api.trace[|start|..] && keys[k] !in api.objects
      invariant old(api.faulty) ==> api.faulty
    {
      ghost var before := api.trace;
      ok := DeleteAndWait(api, who, Wait(keys, skipMarked), keys[i], skipMarked);
      ExtendedAgain(who, Wait(keys, skipMarked), start, before, api.trace);
      if !ok {
        assert !api.faulty ==> PressedAt(who, keys, skipMarked, api.trace[|start|..], i);
        return;
      }
    }
    ok := true;
  }

  lemma KeptEvents(before: seq<Event>, after: seq<Event>)
    requires |before| <= |after| && after[..|before|] == before
    ensures forall e :: e in before ==> e in after
  {
    assert after == before + after[|before|..];
  }

  /** Every deletion of a filesystem from position `from` on comes after its group was
      seen gone. */
  ghost predicate GroupsFirst(who: int, from: nat, trace: seq<Event>)
  {
    forall p :: from <= p < |trace| && trace[p].Issued? && trace[p].key.kind == FilesystemKind ==>
                  Gone(who, GroupKey(trace[p].key.name)) in trace[..p]
  }

  lemma GroupsFirstExtends(who: int, from: nat, before: seq<Event>, after: seq<Event>)
    requires GroupsFirst(who, from, before) && |before| <= |after| && after[..|before|] == before
    requires forall p :: |before| <= p < |after| && after[p].Issued? && after[p].key.kind == FilesystemKind ==>
               Gone(who, GroupKey(after[p].key.name)) in after[..p]
    ensures GroupsFirst(who, from, after)
  {
    forall p | from <= p < |before| ensures after[p] == before[p] && after[..p] == before[..p] {
      assert after[p] == after[..|before|][p];
      assert after[..p] == after[..|before|][..p];
    }
  }

  lemma GroupsFirstIssue(who: int, from: nat, before: seq<Event>, name: string, tail: seq<Event>)
    requires from <= |before| && GroupsFirst(who, from, before) && Gone(who, GroupKey(name)) in before
    requires forall i :: 0 <= i < |tail| ==> !tail[i].Issued?
    ensures GroupsFirst(who, from, before + [Issued(who, FilesystemKey(name))] + tail)
  {
    var after := before + [Issued(who, FilesystemKey(name))] + tail;
    assert forall i :: |before| < i < |after| ==> after[i] == tail[i - |before| - 1];
    forall p | |before| <= p < |after| && after[p].Issued? && after[p].key.kind == FilesystemKind
      ensures Gone(who, GroupKey(after[p].key.name)) in after[..p]
    {
      assert after[..|before|] == before;
    }
    assert after[..|before|] == before;
    GroupsFirstExtends(who, from, before, after);
  }

  /** Ask one object to go and see that it is gone. */
  method DeleteAndLook(api: Api, who: int, key: Key) returns (ok: bool, ghost looks: seq<Event>)
    modifies api`objects, api`trace, api`faulty
    ensures api.objects.Keys <= old(api.objects).Keys
    ensures api.trace == old(api.trace) + [Issued(who, key)] + looks
    ensures forall i :: 0 <= i < |looks| ==> looks[i].who == who && !looks[i].Issued?
    ensures ok ==> Gone(who, key) in looks && key !in api.objects
    ensures old(api.faulty) ==> api.faulty
  {
    looks := [];
    var reply := api.Delete(who, key);
    if !reply.Found? { return false, looks; }
    ghost var asked := api.trace;
    reply := api.Get(who, key);
    looks := api.trace[|asked|..];
    return reply.Missing?, looks;
  }

  lemma FilesystemAsked(who: int, m: Manager, before: seq<Event>, looked: seq<Event>, name: string, tail: seq<Event>)
    requires Owns(m, FilesystemKey(name)) && Extended(who, m, before, looked)
    requires forall i :: 0 <= i < |tail| ==> tail[i].who == who && !tail[i].Issued?
    ensures var after := looked + [Issued(who, FilesystemKey(name))] + tail;
            && Extended(who, m, before, after)
            && (forall e :: e in looked[|before|..] || e in tail ==> e in after[|before|..])
            && Issued(who, FilesystemKey(name)) in after[|before|..]
  {
    var issued := [Issued(who, FilesystemKey(name))];
    assert OwnEvents(who, m, issued + tail);
    ExtendedByTail(who, m, before, looked, issued + tail);
    assert looked + (issued + tail) == looked + issued + tail;
    assert issued[0] in issued + tail;
  }

  /** One filesystem. */
  method DeleteFilesystem(api: Api, who: int, ghost m: Manager, name: string, keepGroups: bool) returns (ok: bool)
    requires Owns(m, FilesystemKey(name)) && (!keepGroups ==> Owns(m, GroupKey(name)))
    modifies api`objects, api`trace, api`faulty
    ensures api.objects.Keys <= old(api.objects).Keys
    ensures Extended(who, m, old(api.trace), api.trace)
    ensures ok ==> FilesystemKey(name) !in api.objects
    ensures ok ==> Gone(who, FilesystemKey(name)) in api.trace[|old(api.trace)|..]
    ensures !keepGroups ==> GroupsFirst(who, |old(api.trace)|, api.trace)
    ensures old(api.faulty) ==> api.faulty
    ensures !ok && !api.faulty ==> FilesystemKey(name) in old(api.objects)
    ensures !ok && !api.faulty ==>
              || Issued(who, FilesystemKey(name)) in api.trace[|old(api.trace)|..]
              || (!keepGroups && Asked(who, GroupKey(name), true, api.trace[|old(api.trace)|..]))
  {
    ghost var before := api.trace;
    var reply := api.Get(who, FilesystemKey(name));
    ghost var looked := api.trace;
    if reply.Missing? { return true; }
    if reply.CallFailed? { return false; }
    if !keepGroups {
      ok := DeleteAndWait(api, who, m, GroupKey(name), true);
      ExtendedAgain(who, m, before, looked, api.trace);
      if !ok { return; }
    }
    looked := api.trace;
    ghost var tail;
    ok, tail := DeleteAndLook(api, who, FilesystemKey(name));
    FilesystemAsked(who, m, before, looked, name, tail);
    if !keepGroups { GroupsFirstIssue(who, |before|, looked, name, tail); }
  }

  lemma ExtendedByTail(who: int, m: Manager, before: seq<Event>, middle: seq<Event>, tail: seq<Event>)
    requires Extended(who, m, before, middle) && OwnEvents(who, m, tail)
    ensures Extended(who, m, before, middle + tail)
    ensures (middle + tail)[|before|..] == middle[|before|..] + tail
  {
    assert (middle + tail)[..|before|] == middle[..|before|];
    assert (middle + tail)[|before|..] == middle[|before|..] + tail;
  }

  /** The first `n` filesystems are gone, by events of this manager. */
  ghost predicate GoneSoFar(who: int, fs: seq<string>, keepGroups: bool, start: seq<Event>, trace: seq<Event>, n: nat)
    requires n <= |fs|
  {
    && Extended(who, Filesystems(fs, keepGroups), start, trace)
    && (forall k :: 0 <= k < n ==> Gone(who, FilesystemKey(fs[k])) in trace[|start|..])
    && (!keepGroups ==> GroupsFirst(who, |start|, trace))
  }

  lemma OwnsFilesystem(fs: seq<string>, keepGroups: bool, i: nat)
    requires i < |fs|
    ensures Owns(Filesystems(fs, keepGroups), FilesystemKey(fs[i]))
    ensures !keepGroups ==> Owns(Filesystems(fs, keepGroups), GroupKey(fs[i]))
  {
  }

  lemma GoneNext(who: int, fs: seq<string>, keepGroups: bool, start: seq<Event>, before: seq<Event>, after: seq<Event>,
                 i: nat)
    requires i < |fs| && GoneSoFar(who, fs, keepGroups, start, before, i)
    requires Extended(who, Filesystems(fs, keepGroups), before, after)
    requires !keepGroups ==> GroupsFirst(who, |before|, after)
    ensures GoneSoFar(who, fs, keepGroups, start, after, i)
    ensures Gone(who, FilesystemKey(fs[i])) in after[|before|..] ==>
              GoneSoFar(who, fs, keepGroups, start, after, i + 1)
    ensures Issued(who, FilesystemKey(fs[i])) in after[|before|..] ||
            (!keepGroups && Asked(who, GroupKey(fs[i]), true, after[|before|..])) ==>
              GroupPressedAt(who, fs, keepGroups, after[|start|..], i)
  {
    ExtendedAgain(who, Filesystems(fs, keepGroups), start, before, after);
    if !keepGroups { GroupsFirstExtends(who, |start|, before, after); }
  }

  lemma AllGone(who: int, fs: seq<string>, keepGroups: bool, start: seq<Event>, trace: seq<Event>)
    requires GoneSoFar(who, fs, keepGroups, start, trace, |fs|)
    ensures Cleared(who, Filesystems(fs, keepGroups), trace)
  {
    forall k | 0 <= k < |fs| ensures Gone(who, FilesystemKey(fs[k])) in trace {
      assert Gone(who, FilesystemKey(fs[k])) in trace[|start|..];
    }
  }

  lemma FilesystemBlocks(fs: seq<string>, keepGroups: bool, i: nat, objects: map<Key, Object>, consumers: nat,
                         volumes: nat)
    requires i < |fs| && FilesystemKey(fs[i]) in objects
    ensures Blocking(Filesystems(fs, keepGroups), objects, consumers, volumes)
  {
    OwnsFilesystem(fs, keepGroups, i);
  }

  /** The loop over the filesystems, up to the first that is not gone. */
  method DeleteInTurn(api: Api, who: int, fs: seq<string>, keepGroups: bool) returns (ok: bool, ghost n: nat)
    modifies api`objects, api`trace, api`faulty
    ensures api.objects.Keys <= old(api.objects).Keys
    ensures n <= |fs| && (ok <==> n == |fs|) && GoneSoFar(who, fs, keepGroups, old(api.trace), api.trace, n)
    ensures forall k :: 0 <= k < n ==> FilesystemKey(fs[k]) !in api.objects
    ensures old(api.faulty) ==> api.faulty
    ensures !ok && !api.faulty ==>
              FilesystemKey(fs[n]) in old(api.objects) &&
              GroupPressedAt(who, fs, keepGroups, api.trace[|old(api.trace)|..], n)
  {
    ghost var start := api.trace;
    n := 0;
    for i := 0 to |fs|
      invariant n == i && api.objects.Keys <= old(api.objects).Keys
      invariant GoneSoFar(who, fs, keepGroups, start, api.trace, i)
      invariant forall k :: 0 <= k < i ==> FilesystemKey(fs[k]) !in api.objects
      invariant old(api.faulty) ==> api.faulty
    {
      ghost var before := api.trace;
      OwnsFilesystem(fs, keepGroups, i);
      ok := DeleteFilesystem(api, who, Filesystems(fs, keepGroups), fs[i], keepGroups);
      GoneNext(who, fs, keepGroups, start, before, api.trace, i);
      if !ok { return; }
      n := i + 1;
    }
    ok := true;
  }

  /** A filesystem goes after its subvolume group is gone, unless groups are kept. */
  method DeleteFilesystems(api: Api, who: int, fs: seq<string>, keepGroups: bool) returns (ok: bool)
    modifies api`objects, api`trace, api`faulty
    ensures api.objects.Keys <= old(api.objects).Keys
    ensures Extended(who, Filesystems(fs, keepGroups), old(api.trace), api.trace)
    ensures ok ==> Through(who, Filesystems(fs, keepGroups), api.objects, api.consumers, api.noobaaVolumes, api.trace)
    ensures !keepGroups ==> GroupsFirst(who, |old(api.trace)|, api.trace)
    ensures old(api.faulty) ==> api.faulty
    ensures !ok && !api.faulty ==>
              Blocking(Filesystems(fs, keepGroups), old(api.objects), api.consumers, api.noobaaVolumes)
    ensures !ok && !api.faulty ==>
              exists i :: 0 <= i < |fs| && GroupPressedAt(who, fs, keepGroups, api.trace[|old(api.trace)|..], i)
  {
    ghost var start, n := api.trace, 0;
    ok, n := DeleteInTurn(api, who, fs, keepGroups);
    if ok {
      AllGone(who, fs, keepGroups, start, api.trace);
    } else if !api.faulty {
      FilesystemBlocks(fs, keepGroups, n, old(api.objects), api.consumers, api.noobaaVolumes);
    }
  }

  /** The managers that look first delete only what they saw, and the ones that respect marks
      only what they saw unmarked. */
  ghost predicate LookedFirst(who: int, mode: Mode, events: seq<Event>)
  {
    mode.BestEffort? || mode.Existing? ==>
      forall key :: Issued(who, key) in events ==>
                      Saw(who, key, false) in events || (mode.Existing? && Saw(who, key, true) in events)
  }

  /** One object of a manager that does not wait. */
  method DeleteUnawaited(api: Api, who: int, ghost m: Manager, key: Key, mode: Mode) returns (next: bool, failed: bool)
    requires Owns(m, key)
    modifies api`objects, api`trace, api`faulty
    ensures api.objects.Keys <= old(api.objects).Keys
    ensures Extended(who, m, old(api.trace), api.trace)
    ensures LookedFirst(who, mode, api.trace[|old(api.trace)|..])
    ensures (old(api.faulty) ==> api.faulty) && (failed ==> api.faulty)
    ensures next && !api.faulty ==> Fired(who, key, mode, api.trace[|old(api.trace)|..])
    ensures !next && !api.faulty ==>
              mode.Existing? && key in old(api.objects) && Issued(who, key) in api.trace[|old(api.trace)|..]
  {
    ghost var start := api.trace;
    var wanted := true;
    if mode.BestEffort? || mode.Existing? {
      var look := api.Get(who, key);
      wanted := look.Found? && (!mode.BestEffort? || !look.item.marked);
      if look.CallFailed? && mode == Existing(true) { return false, false; }
    }
    ghost var looked := api.trace;
    if wanted {
      var reply := api.Delete(who, key);
      assert api.trace[|start|..] == looked[|start|..] + [Issued(who, key)];
      match mode {
        case Direct => if reply.CallFailed? { return false, false; }
        case CollectErrors => return true, reply.CallFailed?;
        case BestEffort =>
        case Existing(_) => if !reply.Found? { return false, false; }
      }
    }
    return true, false;
  }

  lemma FiredNext(who: int, m: Manager, keys: seq<Key>, mode: Mode, start: seq<Event>, before: seq<Event>,
                  after: seq<Event>, i: nat)
    requires i < |keys| && Extended(who, m, start, before) && Extended(who, m, before, after)
    requires LookedFirst(who, mode, before[|start|..]) && LookedFirst(who, mode, after[|before|..])
    ensures Extended(who, m, start, after) && LookedFirst(who, mode, after[|start|..])
    ensures (forall k :: 0 <= k < i ==> Fired(who, keys[k], mode, before[|start|..])) &&
            Fired(who, keys[i], mode, after[|before|..]) ==>
              forall k :: 0 <= k <= i ==> Fired(who, keys[k], mode, after[|start|..])
    ensures forall e :: e in after[|before|..] ==> e in after[|start|..]
  {
    ExtendedAgain(who, m, start, before, after);
    assert after[|start|..] == before[|start|..] + after[|before|..] by {
      assert after == before + after[|before|..];
    }
  }

  /** Managers that delete without waiting. */
  method FireAll(api: Api, who: int, keys: seq<Key>, mode: Mode) returns (ok: bool)
    modifies api`objects, api`trace, api`faulty
    ensures api.objects.Keys <= old(api.objects).Keys
    ensures Extended(who, Fire(keys, mode), old(api.trace), api.trace)
    ensures old(api.faulty) ==> api.faulty
    ensures !ok && !api.faulty ==> Blocking(Fire(keys, mode), old(api.objects), api.consumers, api.noobaaVolumes)
    ensures ok && !api.faulty ==> Handled(who, Fire(keys, mode), api.trace[|old(api.trace)|..])
    ensures LookedFirst(who, mode, api.trace[|old(api.trace)|..])
    ensures !ok && !api.faulty ==>
              mode.Existing? && exists i :: 0 <= i < |keys| && Issued(who, keys[i]) in api.trace[|old(api.trace)|..]
  {
    ghost var m := Fire(keys, mode);
    ghost var start := api.trace;
    var failed := false;
    for i := 0 to |keys|
      invariant api.objects.Keys <= old(api.objects).Keys
      invariant Extended(who, m, start, api.trace)
      invariant !api.faulty ==> forall k :: 0 <= k < i ==> Fired(who, keys[k], mode, api.trace[|start|..])
      invariant LookedFirst(who, mode, api.trace[|start|..])
      invariant old(api.faulty) ==> api.faulty
      invariant failed ==> api.faulty
    {
      ghost var before := api.trace;
      var next, error := DeleteUnawaited(api, who, m, keys[i], mode);
      FiredNext(who, m, keys, mode, start, before, api.trace, i);
      if !next { return false; }
      failed := failed || error;
    }
    return !failed;
  }

  method DeleteProvider(api: Api, who: int, keys: seq<Key>) returns (ok: bool)
    modifies api`objects, api`trace, api`faulty
    ensures api.objects.Keys <= old(api.objects).Keys
    ensures Extended(who, Provider(keys), old(api.trace), api.trace)
    ensures ok ==> Cleared(who, Provider(keys), api.trace) && api.consumers == 0
    ensures forall i :: |old(api.trace)| <= i < |api.trace| && api.trace[i].Issued? ==>
              ConsumersGone(who) in api.trace[..i]
    ensures old(api.faulty) ==> api.faulty
    ensures !ok && !api.faulty ==> Blocking(Provider(keys), old(api.objects), api.consumers, api.noobaaVolumes)
    ensures !ok && !api.faulty ==> api.consumers > 0
    ensures ok && !api.faulty ==> Handled(who, Provider(keys), api.trace[|old(api.trace)|..])
  {
    ghost var start := api.trace;
    var consumers := api.ListConsumers(who);
    if consumers != Some(0) { return false; }
    ghost var before := api.trace;
    ok := FireAll(api, who, keys, CollectErrors);
    assert Extended(who, Provider(keys), start, before);
    assert Extended(who, Provider(keys), before, api.trace);
    ExtendedAgain(who, Provider(keys), start, before, api.trace);
    KeptEvents(before, api.trace);
    forall i | |start| <= i < |api.trace| && api.trace[i].Issued? ensures ConsumersGone(who) in api.trace[..i] {
      assert api.trace[|start|] == api.trace[..|before|][|start|] == ConsumersGone(who);
      assert i != |start|;
      assert api.trace[..i][|start|] == ConsumersGone(who);
    }
  }

  /** NooBaa is left alone in another namespace, when it is ignored, and when it belongs to
      something else; otherwise the run stops until it and its volumes are gone. */
  method DeleteNoobaa(api: Api, who: int, key: Key, elsewhere: bool, ignored: bool) returns (ok: bool)
    modifies api`objects, api`trace, api`faulty
    ensures api.objects.Keys <= old(api.objects).Keys
    ensures Extended(who, Noobaa(key, elsewhere, ignored), old(api.trace), api.trace)
    ensures ok ==> Through(who, Noobaa(key, elsewhere, ignored), api.objects, api.consumers, api.noobaaVolumes,
                           api.trace)
    ensures old(api.faulty) ==> api.faulty
    ensures !ok && !api.faulty ==>
              Blocking(Noobaa(key, elsewhere, ignored), old(api.objects), api.consumers, api.noobaaVolumes)
    ensures elsewhere || ignored ==> ok && api.trace == old(api.trace)
    ensures NotOwned(who) in api.trace[|old(api.trace)|..] ==>
              && ok && Issued(who, key) !in api.trace[|old(api.trace)|..]
              && key in old(api.objects) && !old(api.objects)[key].owned
    ensures Issued(who, key) in api.trace[|old(api.trace)|..] ==>
              key in old(api.objects) && old(api.objects)[key].owned && !old(api.objects)[key].marked
    ensures !ok && !api.faulty ==>
              Pressed(who, Noobaa(key, elsewhere, ignored), api.trace[|old(api.trace)|..], api.consumers,
                      api.noobaaVolumes)
  {
    ghost var m := Noobaa(key, elsewhere, ignored);
    ghost var start := api.trace;
    if elsewhere { return true; }
    if ignored { return true; }
    var reply := api.Get(who, key);
    ghost var looked := api.trace;
    match reply {
      case CallFailed => return false;
      case Missing =>
        var volumes := api.ListNoobaaVolumes(who);
        ExtendedAgain(who, m, start, looked, api.trace);
        return volumes == Some(0);
      case Found(noobaa) =>
        if !noobaa.owned {
          api.trace := api.trace + [NotOwned(who)];
          ExtendedAgain(who, m, start, looked, api.trace);
          return true;
        }
        if !noobaa.marked {
          reply := api.Delete(who, key);
          ExtendedAgain(who, m, start, looked, api.trace);
        }
        return false;
    }
  }

  method EnsureDeleted(api: Api, who: int, m: Manager) returns (ok: bool)
    modifies api`objects, api`trace, api`faulty
    ensures api.objects.Keys <= old(api.objects).Keys
    ensures Extended(who, m, old(api.trace), api.trace)
    ensures ok ==> Through(who, m, api.objects, api.consumers, api.noobaaVolumes, api.trace)
    ensures old(api.faulty) ==> api.faulty
    ensures !ok && !api.faulty ==> Blocking(m, old(api.objects), api.consumers, api.noobaaVolumes)
    ensures !ok && !api.faulty ==>
              Pressed(who, m, api.trace[|old(api.trace)|..], api.consumers, api.noobaaVolumes)
    ensures ok && !api.faulty ==> Handled(who, m, api.trace[|old(api.trace)|..])
  {
    match m {
      case Nothing => ok := true;
      case Noobaa(key, elsewhere, ignored) => ok := DeleteNoobaa(api, who, key, elsewhere, ignored);
      case Provider(keys) => ok := DeleteProvider(api, who, keys);
      case Fire(keys, mode) => ok := FireAll(api, who, keys, mode);
      case Wait(keys, skipMarked) => ok := WaitForAll(api, who, keys, skipMarked);
      case Filesystems(fs, keepGroups) => ok := DeleteFilesystems(api, who, fs, keepGroups);
    }
  }

  // ----- the order of the whole run

  /** Every deletion issued by a manager comes after all managers before it were cleared,
      and is of one of its own objects. */
  ghost predicate Ordered(managers: seq<Manager>, from: nat, trace: seq<Event>)
  {
    forall p :: from <= p < |trace| && trace[p].Issued? ==> Justified(managers, trace, p)
  }

  ghost predicate Justified(managers: seq<Manager>, trace: seq<Event>, p: nat)
    requires p < |trace|
  {
    && trace[p].Issued? && 0 <= trace[p].who < |managers|
    && Owns(managers[trace[p].who], trace[p].key)
    && forall j :: 0 <= j < trace[p].who ==> Cleared(j, managers[j], trace[..p])
  }

  lemma ClearedStays(who: int, m: Manager, before: seq<Event>, after: seq<Event>)
    requires Cleared(who, m, before) && forall e :: e in before ==> e in after
    ensures Cleared(who, m, after)
  {
  }

  lemma OrderedExtends(managers: seq<Manager>, from: nat, before: seq<Event>, after: seq<Event>, n: nat)
    requires from <= |before| && n < |managers| && Ordered(managers, from, before)
    requires Extended(n, managers[n], before, after)
    requires forall j :: 0 <= j < n ==> Cleared(j, managers[j], before)
    ensures Ordered(managers, from, after)
  {
    forall p | from <= p < |after| && after[p].Issued? ensures Justified(managers, after, p) {
      if p < |before| {
        assert after[p] == after[..|before|][p] == before[p];
        assert after[..p] == after[..|before|][..p] == before[..p];
        assert Justified(managers, before, p);
      } else {
        assert after[p] == after[|before|..][p - |before|];
        assert before == after[..p][..|before|];
        KeptEvents(before, after[..p]);
        forall j | 0 <= j < n ensures Cleared(j, managers[j], after[..p]) {
          ClearedStays(j, managers[j], before, after[..p]);
        }
      }
    }
  }

  /** The first `stop` managers are through. */
  ghost predicate ThroughUpTo(managers: seq<Manager>, stop: nat, objects: map<Key, Object>, consumers: nat,
                              volumes: nat, trace: seq<Event>)
    requires stop <= |managers|
  {
    forall j :: 0 <= j < stop ==> Through(j, managers[j], objects, consumers, volumes, trace)
  }

  /** The first `stop` managers have done what they are for. */
  ghost predicate HandledUpTo(managers: seq<Manager>, stop: nat, events: seq<Event>)
    requires stop <= |managers|
  {
    forall j :: 0 <= j < stop ==> Handled(j, managers[j], events)
  }

  lemma HandledNext(managers: seq<Manager>, i: nat, start: seq<Event>, before: seq<Event>, after: seq<Event>)
    requires i < |managers| && |start| <= |before| <= |after|
    requires before[..|start|] == start && after[..|before|] == before
    ensures forall e :: e in after[|before|..] ==> e in after[|start|..]
    ensures HandledUpTo(managers, i, before[|start|..]) && Handled(i, managers[i], after[|before|..]) ==>
              HandledUpTo(managers, i + 1, after[|start|..])
    ensures HandledUpTo(managers, i, before[|start|..]) ==> HandledUpTo(managers, i, after[|start|..])
  {
    assert after[|start|..] == before[|start|..] + after[|before|..] by {
      assert after == before + after[|before|..];
    }
    if HandledUpTo(managers, i, before[|start|..]) {
      forall j | 0 <= j < i ensures Handled(j, managers[j], after[|start|..]) {
        HandledStays(j, managers[j], before[|start|..], after[|start|..]);
      }
      if Handled(i, managers[i], after[|before|..]) {
        HandledStays(i, managers[i], after[|before|..], after[|start|..]);
      }
    }
  }

  /** The loop over the managers. It stops at the first that is not through; without a failed
      call something was still in that one's way, and was asked to go where it can be. */
  method DeleteInOrder(api: Api, managers: seq<Manager>) returns (ok: bool, ghost stop: nat)
    modifies api`objects, api`trace, api`faulty
    ensures api.objects.Keys <= old(api.objects).Keys
    ensures |old(api.trace)| <= |api.trace| && api.trace[..|old(api.trace)|] == old(api.trace)
    ensures Ordered(managers, |old(api.trace)|, api.trace)
    ensures stop <= |managers| && (ok <==> stop == |managers|)
    ensures ThroughUpTo(managers, stop, api.objects, api.consumers, api.noobaaVolumes, api.trace)
    ensures old(api.faulty) ==> api.faulty
    ensures !ok && !api.faulty ==> Blocking(managers[stop], old(api.objects), api.consumers, api.noobaaVolumes)
    ensures !ok && !api.faulty ==>
              Pressed(stop, managers[stop], api.trace[|old(api.trace)|..], api.consumers, api.noobaaVolumes)
    ensures !api.faulty ==> HandledUpTo(managers, stop, api.trace[|old(api.trace)|..])
  {
    ghost var start := api.trace;
    stop := 0;
    for i := 0 to |managers|
      invariant api.objects.Keys <= old(api.objects).Keys
      invariant |start| <= |api.trace| && api.trace[..|start|] == start
      invariant Ordered(managers, |start|, api.trace)
      invariant stop == i && (old(api.faulty) ==> api.faulty)
      invariant ThroughUpTo(managers, i, api.objects, api.consumers, api.noobaaVolumes, api.trace)
      invariant !api.faulty ==> HandledUpTo(managers, i, api.trace[|start|..])
    {
      ghost var before := api.trace;
      ok := EnsureDeleted(api, i, managers[i]);
      OrderedExtends(managers, |start|, before, api.trace, i);
      KeptEvents(before, api.trace);
      assert api.trace[..|start|] == api.trace[..|before|][..|start|];
      HandledNext(managers, i, start, before, api.trace);
      if !ok {
        if !api.faulty {
          PressedStays(i, managers[i], api.trace[|before|..], api.trace[|start|..], api.consumers, api.noobaaVolumes);
        }
        return;
      }
      stop := i + 1;
    }
    ok := true;
  }

  /** Outcomes of the calls around the managers. */
  datatype Steps = Steps(policyUpdated: bool, noobaaModeSet: bool, taintsDeleted: bool, kmsDeleted: bool,
                         secretDeleted: bool)
  {
    predicate Fine() { policyUpdated && noobaaModeSet && taintsDeleted && kmsDeleted && secretDeleted }
  }

  /** Manager `stop` is the first that is not through, and something was in its way; by the
      events of the run, the managers before it and this one have asked for what they could. */
  ghost predicate BlockedAt(managers: seq<Manager>, stop: nat, before: map<Key, Object>, objects: map<Key, Object>,
                            consumers: nat, volumes: nat, trace: seq<Event>, events: seq<Event>)
  {
    && stop < |managers| && ThroughUpTo(managers, stop, objects, consumers, volumes, trace)
    && Blocking(managers[stop], before, consumers, volumes)
    && HandledUpTo(managers, stop, events) && Pressed(stop, managers[stop], events, consumers, volumes)
  }

  lemma BlockedLater(managers: seq<Manager>, stop: nat, before: map<Key, Object>, objects: map<Key, Object>,
                     consumers: nat, volumes: nat, trace: seq<Event>, some: seq<Event>, all: seq<Event>)
    requires BlockedAt(managers, stop, before, objects, consumers, volumes, trace, some)
    requires forall e :: e in some ==> e in all
    ensures BlockedAt(managers, stop, before, objects, consumers, volumes, trace, all)
  {
    PressedStays(stop, managers[stop], some, all, consumers, volumes);
    forall j | 0 <= j < stop ensures Handled(j, managers[j], all) {
      HandledStays(j, managers[j], some, all);
    }
  }

  /** The CephCluster was asked to go up front, or was seen marked or gone. */
  ghost predicate CephAsked(spec: Spec, events: seq<Event>)
  {
    || Issued(-1, spec.cephCluster) in events || Saw(-1, spec.cephCluster, true) in events
    || Gone(-1, spec.cephCluster) in events
  }

  /** The CephCluster is asked to go before the managers run. */
  method DeleteUpFront(api: Api, spec: Spec, steps: Steps) returns (ok: bool)
    modifies api`objects, api`trace, api`faulty
    ensures api.objects.Keys <= old(api.objects).Keys
    ensures UpFront(spec, old(api.trace), api.trace, |api.trace|)
    ensures old(api.faulty) ==> api.faulty
    ensures ok ==> CephAsked(spec, api.trace[|old(api.trace)|..])
    ensures !ok ==> api.faulty || !steps.policyUpdated
  {
    ghost var start := api.trace;
    var reply := api.Get(-1, spec.cephCluster);
    if reply.CallFailed? { return false; }
    if reply.Found? && !reply.item.marked {
      if !steps.policyUpdated { return false; }
      reply := api.Delete(-1, spec.cephCluster);
      assert api.trace[|start|..][1] == Issued(-1, spec.cephCluster);
      if reply.CallFailed? { return false; }
    }
    return true;
  }

  /** `deleteResources`: the CephCluster is asked to go up front, then the managers run. */
  method DeleteResources(api: Api, spec: Spec, steps: Steps) returns (ok: bool)
    modifies api`objects, api`trace, api`faulty
    ensures api.objects.Keys <= old(api.objects).Keys
    ensures exists start :: UpFront(spec, old(api.trace), api.trace, start) && Ordered(Managers(spec), start, api.trace)
    ensures ok ==>
              ThroughUpTo(Managers(spec), |Managers(spec)|, api.objects, api.consumers, api.noobaaVolumes, api.trace)
    ensures ok && !api.faulty ==> HandledUpTo(Managers(spec), |Managers(spec)|, api.trace[|old(api.trace)|..])
    ensures old(api.faulty) ==> api.faulty
    ensures !api.faulty && steps.policyUpdated ==> CephAsked(spec, api.trace[|old(api.trace)|..])
    ensures !ok && !api.faulty && steps.Fine() ==>
              exists stop :: BlockedAt(Managers(spec), stop, old(api.objects), api.objects, api.consumers,
                                       api.noobaaVolumes, api.trace, api.trace[|old(api.trace)|..])
  {
    ghost var before := api.trace;
    ok := DeleteUpFront(api, spec, steps);
    if !ok || !steps.noobaaModeSet { return false; }
    ghost var early, stored := api.trace, api.objects;
    var managers := Managers(spec);
    ghost var stop;
    ok, stop := DeleteInOrder(api, managers);
    UpFrontStays(spec, before, early, api.trace);
    if !ok && !api.faulty {
      BlockingBefore(managers[stop], stored, old(api.objects), api.consumers, api.noobaaVolumes);
      BlockedLater(managers, stop, old(api.objects), api.objects, api.consumers, api.noobaaVolumes, api.trace,
                   api.trace[|early|..], api.trace[|before|..]);
    }
    if ok && !api.faulty {
      forall j | 0 <= j < |managers| ensures Handled(j, managers[j], api.trace[|before|..]) {
        HandledStays(j, managers[j], api.trace[|early|..], api.trace[|before|..]);
      }
    }
    ok := ok && steps.taintsDeleted && steps.kmsDeleted && steps.secretDeleted;
  }

  lemma UpFrontStays(spec: Spec, before: seq<Event>, early: seq<Event>, trace: seq<Event>)
    requires UpFront(spec, before, early, |early|) && |early| <= |trace| && trace[..|early|] == early
    ensures UpFront(spec, before, trace, |early|)
    ensures forall e :: e in early[|before|..] || e in trace[|early|..] ==> e in trace[|before|..]
  {
    assert trace[..|before|] == early[..|before|];
    assert trace == early + trace[|early|..];
    assert trace[|before|..] == early[|before|..] + trace[|early|..];
    forall p | |before| <= p < |early| ensures trace[p] == early[p] {
    }
  }

  lemma BlockingBefore(m: Manager, now: map<Key, Object>, before: map<Key, Object>, consumers: nat, volumes: nat)
    requires Blocking(m, now, consumers, volumes) && now.Keys <= before.Keys
    ensures Blocking(m, before, consumers, volumes)
  {
    if key :| Owns(m, key) && key in now {
      assert key in before;
    }
  }

  /** Before position `start` only the CephCluster was looked at and asked to go. */
  ghost predicate UpFront(spec: Spec, before: seq<Event>, trace: seq<Event>, start: nat)
  {
    && |before| <= start <= |trace| && trace[..|before|] == before
    && forall p :: |before| <= p < start ==>
         trace[p].who == -1 && (trace[p].Issued? ==> trace[p].key == spec.cephCluster)
  }

  /** Nothing that was waited for is left. */
  ghost predicate TornDown(spec: Spec, objects: map<Key, Object>, consumers: nat, volumes: nat, trace: seq<Event>)
  {
    && consumers == 0 && ConsumersGone(3) in trace
    && spec.cephCluster !in objects
    && (forall k :: k in spec.pools || k in spec.users || k in spec.stores || k in spec.nfs || k in spec.nfsServices ==>
          k !in objects)
    && (spec.routesDisabled || forall k :: k in spec.routes ==> k !in objects)
    && (forall name :: name in spec.filesystems ==> FilesystemKey(name) !in objects)
    && (!spec.inOperatorNamespace || spec.noobaaIgnored || NotOwned(1) in trace ||
         (spec.noobaa !in objects && volumes == 0))
  }

  lemma WaitedFor(who: int, m: Manager, keys: seq<Key>, skipMarked: bool,
                  objects: map<Key, Object>, consumers: nat, volumes: nat, trace: seq<Event>)
    requires m == Wait(keys, skipMarked) && Through(who, m, objects, consumers, volumes, trace)
    ensures forall k :: k in keys ==> k !in objects
  {
  }

  lemma AllThrough(spec: Spec, objects: map<Key, Object>, consumers: nat, volumes: nat, trace: seq<Event>)
    requires ThroughUpTo(Managers(spec), |Managers(spec)|, objects, consumers, volumes, trace)
    ensures TornDown(spec, objects, consumers, volumes, trace)
  {
    var ms := Managers(spec);
    WaitedFor(5, ms[5], spec.users, false, objects, consumers, volumes, trace);
    WaitedFor(6, ms[6], spec.stores, false, objects, consumers, volumes, trace);
    WaitedFor(8, ms[8], spec.nfs, false, objects, consumers, volumes, trace);
    WaitedFor(9, ms[9], spec.nfsServices, false, objects, consumers, volumes, trace);
    WaitedFor(11, ms[11], spec.pools, false, objects, consumers, volumes, trace);
    WaitedFor(15, ms[15], [spec.cephCluster], true, objects, consumers, volumes, trace);
    assert spec.cephCluster in [spec.cephCluster];
    if !spec.routesDisabled {
      WaitedFor(4, ms[4], spec.routes, false, objects, consumers, volumes, trace);
    }
    assert Through(1, ms[1], objects, consumers, volumes, trace);
    assert Through(3, ms[3], objects, consumers, volumes, trace);
    assert Through(10, ms[10], objects, consumers, volumes, trace);
  }

  /** The uninstall of one run, finalizer included: it is removed only when every manager
      was cleared in this run, the objects that were waited for are no longer stored, and
      no consumer is left. Without a failed call it stays only because some manager was
      blocked, and with nothing left to delete it goes. */
  method Finalize(api: Api, spec: Spec, steps: Steps) returns (finalizerRemoved: bool)
    modifies api`objects, api`trace, api`faulty
    ensures exists start :: UpFront(spec, old(api.trace), api.trace, start) && Ordered(Managers(spec), start, api.trace)
    ensures finalizerRemoved ==>
              && ThroughUpTo(Managers(spec), |Managers(spec)|, api.objects, api.consumers, api.noobaaVolumes, api.trace)
              && TornDown(spec, api.objects, api.consumers, api.noobaaVolumes, api.trace)
    ensures !finalizerRemoved && !api.faulty && steps.Fine() ==>
              exists stop :: BlockedAt(Managers(spec), stop, old(api.objects), api.objects, api.consumers,
                                       api.noobaaVolumes, api.trace, api.trace[|old(api.trace)|..])
    ensures finalizerRemoved && !api.faulty ==>
              HandledUpTo(Managers(spec), |Managers(spec)|, api.trace[|old(api.trace)|..])
    ensures !api.faulty && steps.policyUpdated ==> CephAsked(spec, api.trace[|old(api.trace)|..])
    ensures !api.faulty && steps.Fine() && old(api.objects) == map[] && api.consumers == 0 && api.noobaaVolumes == 0 ==>
              finalizerRemoved
  {
    ghost var before := api.trace;
    finalizerRemoved := DeleteResources(api, spec, steps);
    ghost var start :| UpFront(spec, before, api.trace, start) && Ordered(Managers(spec), start, api.trace);
    if finalizerRemoved {
      AllThrough(spec, api.objects, api.consumers, api.noobaaVolumes, api.trace);
      var updated := *;
      if !updated { api.faulty := true; }
      finalizerRemoved := updated;
    }
    assert UpFront(spec, before, api.trace, start) && Ordered(Managers(spec), start, api.trace);
  }

  /** A run held up by the block pools, without a failed call, saw some first pools gone and
      issued the deletion of the next; one held up by the CephCluster manager issued its
      deletion, unless it found it marked. */
  lemma HeldUpRunHasAsked(spec: Spec, stop: nat, before: map<Key, Object>, objects: map<Key, Object>,
                          consumers: nat, volumes: nat, trace: seq<Event>, events: seq<Event>)
    requires BlockedAt(Managers(spec), stop, before, objects, consumers, volumes, trace, events)
    ensures stop == 11 ==>
              exists i :: 0 <= i < |spec.pools| && Issued(11, spec.pools[i]) in events &&
                          forall k :: 0 <= k < i ==> Gone(11, spec.pools[k]) in events
    ensures stop == 15 ==> Issued(15, spec.cephCluster) in events || Saw(15, spec.cephCluster, true) in events
    ensures stop > 14 ==> forall k :: k in spec.storageClasses ==>
              Issued(14, k) in events || Gone(14, k) in events || Saw(14, k, true) in events
  {
    var ms := Managers(spec);
    assert ms[11] == Wait(spec.pools, false) && ms[15] == Wait([spec.cephCluster], true);
    if stop == 11 {
      var i :| 0 <= i < |spec.pools| && PressedAt(11, spec.pools, false, events, i);
      assert Issued(11, spec.pools[i]) in events;
    }
    if stop > 14 {
      assert Handled(14, ms[14], events) && ms[14] == Fire(spec.storageClasses, BestEffort);
      forall k | k in spec.storageClasses
        ensures Issued(14, k) in events || Gone(14, k) in events || Saw(14, k, true) in events
      {
        var i :| 0 <= i < |spec.storageClasses| && spec.storageClasses[i] == k;
        assert Fired(14, spec.storageClasses[i], BestEffort, events);
      }
    }
  }

  /** What the order means for the data: when a deletion of a pool is issued, the
      filesystems and object stores were seen gone and no consumer was left; when the
      CephCluster manager issues one, so were the pools. Object stores come after their
      users, and everything comes after NooBaa and its volumes. */
  lemma DataOrder(spec: Spec, from: nat, trace: seq<Event>, p: nat)
    requires Ordered(Managers(spec), from, trace) && from <= p < |trace| && trace[p].Issued?
    ensures trace[p].who >= 11 ==>
              && ConsumersGone(3) in trace[..p]
              && (forall name :: name in spec.filesystems ==> Gone(10, FilesystemKey(name)) in trace[..p])
              && (forall k :: k in spec.stores ==> Gone(6, k) in trace[..p])
    ensures trace[p].who >= 2 ==>
              || !spec.inOperatorNamespace || spec.noobaaIgnored || NotOwned(1) in trace[..p]
              || (Gone(1, spec.noobaa) in trace[..p] && VolumesGone(1) in trace[..p])
    ensures trace[p].who == 6 ==> forall k :: k in spec.users ==> Gone(5, k) in trace[..p]
    ensures trace[p].who == 15 ==>
              trace[p].key == spec.cephCluster && forall k :: k in spec.pools ==> Gone(11, k) in trace[..p]
  {
    var ms := Managers(spec);
    assert Justified(ms, trace, p);
    if trace[p].who >= 11 {
      assert Cleared(3, ms[3], trace[..p]) && Cleared(10, ms[10], trace[..p]) && Cleared(6, ms[6], trace[..p]);
      assert ms[10] == Filesystems(spec.filesystems, spec.remoteConsumers) && ms[6] == Wait(spec.stores, false);
    }
    if trace[p].who >= 2 {
      assert Cleared(1, ms[1], trace[..p]);
      assert ms[1] == Noobaa(spec.noobaa, !spec.inOperatorNamespace, spec.noobaaIgnored);
    }
    if trace[p].who == 6 {
      assert Cleared(5, ms[5], trace[..p]) && ms[5] == Wait(spec.users, false);
    }
    if trace[p].who == 15 {
      assert Cleared(11, ms[11], trace[..p]) && ms[11] == Wait(spec.pools, false);
      assert ms[15] == Wait([spec.cephCluster], true);
    }
  }
}
