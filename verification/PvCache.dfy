/** The metrics cache of persistent volumes and of the RBD clients that watch them, and
    the collector that joins it with the Ceph blocklist. */
module PvCache {
  import opened Collections
  import opened Text

  datatype Claim = Claim(namespace: string, name: string)

  /** The attributes are those of the CSI source, if the volume has one. */
  datatype PersistentVolume = PersistentVolume(
    uid: string, name: string, provisioner: string, claim: Option<Claim>, attributes: Option<map<string, string>>)

  datatype Attributes = Attributes(name: string, claim: Claim, imageName: string, pool: string)

  datatype MonitorConfig = MonitorConfig(clusterID: string, namespace: string, monitor: string, id: string, key: string)

  const NO_CONFIG := MonitorConfig("", "", "", "", "")

  /** What the outside world answers while one volume is added: the configuration, the
      addresses of the image's watchers, and the node that uses the volume. */
  datatype Probe = Probe(config: Option<MonitorConfig>, watchers: Option<seq<string>>, node: Option<string>)

  /** How an addition ends; a volume of the RBD driver without a CSI source ends in a panic. */
  datatype Ending = Done | Failed | Panicked

  datatype Event = Cleared | Added(pv: PersistentVolume, probe: Probe) | Deleted(uid: string)

  datatype Cache = Cache(
    store: map<string, Attributes>, clients: map<string, seq<string>>, config: MonitorConfig)

  function Attribute(pv: PersistentVolume, key: string): string
    requires pv.attributes.Some?
  {
    if key in pv.attributes.value then pv.attributes.value[key] else ""
  }

  function Listed(clients: map<string, seq<string>>, address: string): seq<string>
  {
    if address in clients then clients[address] else []
  }

  // ----- the cache

  class PersistentVolumeStore {
    var Store: map<string, Attributes>
    var RBDClientMap: map<string, seq<string>>
    var monitorConfig: MonitorConfig

    ghost function Value(): Cache
      reads this
    {
      Cache(Store, RBDClientMap, monitorConfig)
    }

    constructor ()
      ensures Value() == Cache(map[], map[], NO_CONFIG)
    {
      Store, RBDClientMap, monitorConfig := map[], map[], NO_CONFIG;
    }

    method Add(pv: PersistentVolume, probe: Probe) returns (end: Ending)
      modifies this
      ensures Value() == Apply(old(Value()), Added(pv, probe))
      ensures end == EndOf(old(Value()), pv, probe)
      ensures end == Panicked ==> HasSubstring(pv.provisioner, ".rbd.csi.ceph.com") && pv.attributes.None?
      ensures end == Failed && Value() != old(Value()) ==> pv.uid in Store && (probe.watchers.None? || probe.node.None?)
      ensures end == Done && Store != old(Store) ==> probe.watchers.Some? && probe.node.Some?
    {
      if !HasSubstring(pv.provisioner, ".rbd.csi.ceph.com") { return Done; }
      if pv.claim.None? { return Done; }
      if monitorConfig == NO_CONFIG {
        if probe.config.None? { return Failed; }
        monitorConfig := probe.config.value;
      }
      if pv.attributes.None? { return Panicked; }
      if monitorConfig.clusterID != Attribute(pv, "clusterID") { return Done; }
      Store := Store[pv.uid := Attributes(pv.name, pv.claim.value, Attribute(pv, "imageName"), Attribute(pv, "pool"))];
      if probe.watchers.None? { return Failed; }
      if probe.node.None? { return Failed; }
      if probe.node.value == "" { return Done; }
      RecordWatchers(probe.watchers.value, probe.node.value);
      return Done;
    }

    method RecordWatchers(watchers: seq<string>, nodeName: string)
      modifies this`RBDClientMap
      ensures RBDClientMap == Watch(old(RBDClientMap), watchers, |watchers|, nodeName)
    {
      for i := 0 to |watchers|
        invariant RBDClientMap == Watch(old(RBDClientMap), watchers, i, nodeName)
      {
        var list := AppendIfNotExists(Listed(RBDClientMap, watchers[i]), nodeName);
        RBDClientMap := RBDClientMap[watchers[i] := list];
      }
    }

    method Update(pv: PersistentVolume, probe: Probe) returns (end: Ending)
      modifies this
      ensures Value() == Apply(old(Value()), Added(pv, probe))
      ensures end == EndOf(old(Value()), pv, probe)
    {
      end := Add(pv, probe);
    }

    method Delete(uid: string)
      modifies this
      ensures Value() == Apply(old(Value()), Deleted(uid))
    {
      Store := Store - {uid};
    }

    /** Clears the store, but not the clients, and adds the list up to the first failure. */
    method Replace(list: seq<PersistentVolume>, probes: seq<Probe>) returns (end: Ending, ghost done: nat)
      requires |probes| == |list|
      modifies this
      ensures StopsAt(old(Value()), [Cleared], list, probes, done, end)
      ensures Value() == Run(old(Value()), [Cleared] + Additions(list, probes)[..done])
    {
      Store := map[];
      end, done := AddAll(list, probes, old(Value()), [Cleared]);
    }

    /** Adds a fresh listing, without clearing anything. */
    method Resync(list: seq<PersistentVolume>, probes: seq<Probe>) returns (end: Ending, ghost done: nat)
      requires |probes| == |list|
      modifies this
      ensures StopsAt(old(Value()), [], list, probes, done, end)
      ensures Value() == Run(old(Value()), Additions(list, probes)[..done])
    {
      end, done := AddAll(list, probes, old(Value()), []);
      assert [] + Additions(list, probes)[..done] == Additions(list, probes)[..done];
    }

    method AddAll(list: seq<PersistentVolume>, probes: seq<Probe>, ghost start: Cache, ghost before: seq<Event>)
      returns (end: Ending, ghost done: nat)
      requires |probes| == |list| && Value() == Run(start, before)
      modifies this
      ensures StopsAt(start, before, list, probes, done, end)
      ensures Value() == Run(start, before + Additions(list, probes)[..done])
    {
      ghost var additions := Additions(list, probes);
      done := 0;
      assert before + additions[..0] == before;
      for i := 0 to |list|
        invariant done == i && Value() == Run(start, before + additions[..i])
        invariant forall k :: 0 <= k < i ==> EndAt(start, before, list, probes, k) == Done
      {
        AdditionsNext(start, before, additions, i);
        end := Add(list[i], probes[i]);
        done := i + 1;
        if end != Done { return; }
      }
      end := Done;
    }
  }

  method AppendIfNotExists(list: seq<string>, value: string) returns (r: seq<string>)
    ensures r == if value in list then list else list + [value]
  {
    for i := 0 to |list|
      invariant value !in list[..i]
    {
      if list[i] == value { return list; }
    }
    return list + [value];
  }

  // ----- the events

  function ConfigAfter(config: MonitorConfig, pv: PersistentVolume, probe: Probe): MonitorConfig
  {
    if Bound(pv) && config == NO_CONFIG && probe.config.Some? then probe.config.value else config
  }

  /** A claimed volume of the RBD driver. */
  predicate Bound(pv: PersistentVolume)
  {
    HasSubstring(pv.provisioner, ".rbd.csi.ceph.com") && pv.claim.Some?
  }

  /** The volume belongs to the cache, read with this configuration at hand. */
  predicate Eligible(config: MonitorConfig, pv: PersistentVolume, probe: Probe)
  {
    && Bound(pv) && (config == NO_CONFIG ==> probe.config.Some?) && pv.attributes.Some?
    && ConfigAfter(config, pv, probe).clusterID == Attribute(pv, "clusterID")
  }

  function AttributesOf(pv: PersistentVolume): Attributes
    requires pv.claim.Some? && pv.attributes.Some?
  {
    Attributes(pv.name, pv.claim.value, Attribute(pv, "imageName"), Attribute(pv, "pool"))
  }

  /** The addition sees this node use the image that this address watches. */
  predicate Observes(config: MonitorConfig, pv: PersistentVolume, probe: Probe, address: string, node: string)
  {
    && Eligible(config, pv, probe) && probe.watchers.Some? && address in probe.watchers.value
    && probe.node == Some(node) && node != ""
  }

  function Watch(clients: map<string, seq<string>>, watchers: seq<string>, n: nat, node: string): map<string,
      seq<string>>
    requires n <= |watchers|
  {
    if n == 0 then clients
    else
      var before := Watch(clients, watchers, n - 1, node);
      var list := Listed(before, watchers[n - 1]);
      before[watchers[n - 1] := if node in list then list else list + [node]]
  }

  function EndOf(cache: Cache, pv: PersistentVolume, probe: Probe): Ending
  {
    if !Bound(pv) then Done
    else if cache.config == NO_CONFIG && probe.config.None? then Failed
    else if pv.attributes.None? then Panicked
    else if Eligible(cache.config, pv, probe) && (probe.watchers.None? || probe.node.None?) then Failed
    else Done
  }

  /** How the addition of entry `k` ends, after the additions of the entries before it. */
  function EndAt(start: Cache, before: seq<Event>, list: seq<PersistentVolume>, probes: seq<Probe>, k: nat): Ending
    requires k < |list| == |probes|
  {
    EndOf(Run(start, before + Additions(list, probes)[..k]), list[k], probes[k])
  }

  /** All entries before the last one looked at were added without a failure; that one was
      the first to fail, or there are no more. */
  predicate StopsAt(start: Cache, before: seq<Event>, list: seq<PersistentVolume>, probes: seq<Probe>, done: nat,
                    end: Ending)
    requires |probes| == |list|
  {
    && done <= |list|
    && (forall k :: 0 <= k < done - 1 ==> EndAt(start, before, list, probes, k) == Done)
    && (if done == 0 then list == [] && end == Done else EndAt(start, before, list, probes, done - 1) == end)
    && (end == Done ==> done == |list|)
  }

  function Apply(cache: Cache, event: Event): Cache
  {
    match event
    case Cleared => cache.(store := map[])
    case Deleted(uid) => cache.(store := cache.store - {uid})
    case Added(pv, probe) =>
      var config := ConfigAfter(cache.config, pv, probe);
      if !Eligible(cache.config, pv, probe) then cache.(config := config)
      else
        Cache(cache.store[pv.uid := AttributesOf(pv)],
              if probe.watchers.Some? && probe.node.Some? && probe.node.value != ""
              then Watch(cache.clients, probe.watchers.value, |probe.watchers.value|, probe.node.value)
              else cache.clients,
              config)
  }

  function Run(cache: Cache, events: seq<Event>): Cache
  {
    if events == [] then cache else Apply(Run(cache, events[..|events| - 1]), events[|events| - 1])
  }

  lemma RunNext(cache: Cache, events: seq<Event>, event: Event)
    ensures Run(cache, events + [event]) == Apply(Run(cache, events), event)
  {
    assert (events + [event])[..|events|] == events;
  }

  lemma AdditionsNext(start: Cache, before: seq<Event>, additions: seq<Event>, i: nat)
    requires i < |additions|
    ensures Run(start, before + additions[..i + 1]) == Apply(Run(start, before + additions[..i]), additions[i])
  {
    RunNext(start, before + additions[..i], additions[i]);
    assert before + additions[..i] + [additions[i]] == before + additions[..i + 1];
  }

  function Additions(list: seq<PersistentVolume>, probes: seq<Probe>): (events: seq<Event>)
    requires |probes| == |list|
    ensures |events| == |list|
  {
    seq(|list|, (i: int) requires 0 <= i < |list| => Added(list[i], probes[i]))
  }

  // ----- what the history says

  ghost function ConfigAt(cache: Cache, events: seq<Event>, i: nat): MonitorConfig
    requires i <= |events|
  {
    Run(cache, events[..i]).config
  }

  /** Event `i` puts the volume with this uid into the store. */
  ghost predicate Puts(cache: Cache, events: seq<Event>, i: nat, uid: string)
    requires i < |events|
  {
    events[i].Added? && events[i].pv.uid == uid && Eligible(ConfigAt(cache, events, i), events[i].pv, events[i].probe)
  }

  predicate Takes(event: Event, uid: string)
  {
    event.Cleared? || event == Deleted(uid)
  }

  /** Event `j` says something about the uid. */
  ghost predicate Mentions(cache: Cache, events: seq<Event>, j: nat, uid: string)
    requires j < |events|
  {
    Puts(cache, events, j, uid) || Takes(events[j], uid)
  }

  /** The last event that says anything about the uid is `i`, and it puts it. */
  ghost predicate LastPut(cache: Cache, events: seq<Event>, i: nat, uid: string)
    requires i < |events|
  {
    Puts(cache, events, i, uid) && forall j :: i < j < |events| ==> !Mentions(cache, events, j, uid)
  }

  /** No event says anything about the uid. */
  ghost predicate Unmentioned(cache: Cache, events: seq<Event>, uid: string)
  {
    forall j :: 0 <= j < |events| ==> !Mentions(cache, events, j, uid)
  }

  lemma PrefixConfig(cache: Cache, events: seq<Event>, i: nat)
    requires i < |events|
    ensures ConfigAt(cache, events[..|events| - 1], i) == ConfigAt(cache, events, i)
  {
    assert events[..|events| - 1][..i] == events[..i];
  }

  ghost predicate SomeLastPut(cache: Cache, events: seq<Event>, uid: string)
  {
    exists i :: 0 <= i < |events| && LastPut(cache, events, i, uid)
  }

  /** The entry names the volume, its claim, and the image and pool of its CSI source; a
      missing attribute reads as empty. */
  ghost predicate Describes(entry: Attributes, pv: PersistentVolume)
  {
    && pv.claim == Some(entry.claim) && entry.name == pv.name && pv.attributes.Some?
    && entry.imageName ==
       (if "imageName" in pv.attributes.value then pv.attributes.value["imageName"] else "")
    && entry.pool == (if "pool" in pv.attributes.value then pv.attributes.value["pool"] else "")
  }

  /** What the history says about one uid is what the store holds. */
  ghost predicate StoreTold(cache: Cache, events: seq<Event>, uid: string)
  {
    var store := Run(cache, events).store;
    && (uid in store <==> SomeLastPut(cache, events, uid) || (uid in cache.store && Unmentioned(cache, events, uid)))
    && (forall i :: 0 <= i < |events| && LastPut(cache, events, i, uid) ==>
          uid in store && Describes(store[uid], events[i].pv))
    && (uid in cache.store && Unmentioned(cache, events, uid) ==> uid in store && store[uid] == cache.store[uid])
  }

  lemma StoreToldByLast(cache: Cache, events: seq<Event>, uid: string)
    requires events != [] && Mentions(cache, events, |events| - 1, uid)
    ensures StoreTold(cache, events, uid)
  {
    var n := |events| - 1;
    assert ConfigAt(cache, events, n) == Run(cache, events[..n]).config;
    if Puts(cache, events, n, uid) {
      assert LastPut(cache, events, n, uid);
    }
  }

  lemma LastPutsStay(cache: Cache, events: seq<Event>, uid: string)
    requires events != [] && !Mentions(cache, events, |events| - 1, uid)
    ensures forall i :: 0 <= i < |events| - 1 ==>
              (LastPut(cache, events[..|events| - 1], i, uid) <==> LastPut(cache, events, i, uid))
    ensures !LastPut(cache, events, |events| - 1, uid)
    ensures SomeLastPut(cache, events[..|events| - 1], uid) <==> SomeLastPut(cache, events, uid)
  {
    var before := events[..|events| - 1];
    forall i | 0 <= i < |before| ensures LastPut(cache, before, i, uid) <==> LastPut(cache, events, i, uid) {
      LastPutExtends(cache, events, i, uid);
    }
    if i :| 0 <= i < |before| && LastPut(cache, before, i, uid) {
      assert LastPut(cache, events, i, uid);
    }
    if i :| 0 <= i < |events| && LastPut(cache, events, i, uid) {
      assert LastPut(cache, before, i, uid);
    }
  }

  /** An event that says nothing about the uid leaves its entry alone. */
  lemma EntryStays(cache: Cache, events: seq<Event>, uid: string)
    requires events != [] && !Mentions(cache, events, |events| - 1, uid)
    ensures var before, after := Run(cache, events[..|events| - 1]).store, Run(cache, events).store;
            (uid in after <==> uid in before) && (uid in before ==> after[uid] == before[uid])
  {
    assert ConfigAt(cache, events, |events| - 1) == Run(cache, events[..|events| - 1]).config;
  }

  lemma StoreToldStays(cache: Cache, events: seq<Event>, uid: string)
    requires events != [] && StoreTold(cache, events[..|events| - 1], uid)
    requires !Mentions(cache, events, |events| - 1, uid)
    ensures StoreTold(cache, events, uid)
  {
    EntryStays(cache, events, uid);
    LastPutsStay(cache, events, uid);
    UnmentionedExtends(cache, events, uid);
  }

  /** The store holds exactly the volumes whose last word in the history is an eligible
      addition, with the attributes of that addition, and what was there before as long as
      nothing was said about it. */
  lemma {:induction false} StoreIsHistory(cache: Cache, events: seq<Event>, uid: string)
    ensures StoreTold(cache, events, uid)
  {
    if events != [] {
      StoreIsHistory(cache, events[..|events| - 1], uid);
      if Mentions(cache, events, |events| - 1, uid) {
        StoreToldByLast(cache, events, uid);
      } else {
        StoreToldStays(cache, events, uid);
      }
    }
  }

  lemma MentionsInPrefix(cache: Cache, events: seq<Event>, j: nat, uid: string)
    requires j < |events| - 1
    ensures Puts(cache, events[..|events| - 1], j, uid) <==> Puts(cache, events, j, uid)
    ensures Mentions(cache, events[..|events| - 1], j, uid) <==> Mentions(cache, events, j, uid)
  {
    PrefixConfig(cache, events, j);
  }

  lemma UnmentionedExtends(cache: Cache, events: seq<Event>, uid: string)
    requires events != [] && !Mentions(cache, events, |events| - 1, uid)
    ensures Unmentioned(cache, events[..|events| - 1], uid) <==> Unmentioned(cache, events, uid)
  {
    var before := events[..|events| - 1];
    forall j | 0 <= j < |before| ensures Mentions(cache, before, j, uid) <==> Mentions(cache, events, j, uid) {
      MentionsInPrefix(cache, events, j, uid);
    }
  }

  lemma LastPutExtends(cache: Cache, events: seq<Event>, i: nat, uid: string)
    requires i < |events| - 1 && !Mentions(cache, events, |events| - 1, uid)
    ensures LastPut(cache, events[..|events| - 1], i, uid) <==> LastPut(cache, events, i, uid)
  {
    MentionsInPrefix(cache, events, i, uid);
    var before := events[..|events| - 1];
    forall j | 0 <= j < |before| ensures Mentions(cache, before, j, uid) <==> Mentions(cache, events, j, uid) {
      MentionsInPrefix(cache, events, j, uid);
    }
  }

  ghost predicate ObservedAt(cache: Cache, events: seq<Event>, i: nat, address: string, node: string)
    requires i < |events|
  {
    events[i].Added? && Observes(ConfigAt(cache, events, i), events[i].pv, events[i].probe, address, node)
  }

  ghost predicate Observed(cache: Cache, events: seq<Event>, address: string, node: string)
  {
    exists i :: 0 <= i < |events| && ObservedAt(cache, events, i, address, node)
  }

  lemma ObservedNext(cache: Cache, events: seq<Event>, address: string, node: string)
    requires events != []
    ensures var n := |events| - 1;
            Observed(cache, events, address, node) <==>
              Observed(cache, events[..n], address, node) ||
              (events[n].Added? &&
                  Observes(Run(cache, events[..n]).config, events[n].pv, events[n].probe, address, node))
  {
    var n := |events| - 1;
    var before := events[..n];
    forall i | 0 <= i < n
      ensures ObservedAt(cache, before, i, address, node) <==> ObservedAt(cache, events, i, address, node)
    {
      PrefixConfig(cache, events, i);
    }
    if Observed(cache, before, address, node) {
      var i :| 0 <= i < n && ObservedAt(cache, before, i, address, node);
      assert ObservedAt(cache, events, i, address, node);
    }
    assert ObservedAt(cache, events, n, address, node) <==>
           events[n].Added? && Observes(Run(cache, before).config, events[n].pv, events[n].probe, address, node);
    if Observed(cache, events, address, node) {
      var i :| 0 <= i < |events| && ObservedAt(cache, events, i, address, node);
      assert i < n ==> ObservedAt(cache, before, i, address, node);
    }
  }

  lemma {:induction false} WatchAdds(clients: map<string, seq<string>>, watchers: seq<string>, n: nat, node: string,
                                     address: string, other: string)
    requires n <= |watchers|
    ensures other in Listed(Watch(clients, watchers, n, node), address) <==>
              other in Listed(clients, address) || (other == node && address in watchers[..n])
    ensures NoDuplicates(Listed(clients, address)) ==> NoDuplicates(Listed(Watch(clients, watchers, n, node), address))
  {
    if n > 0 {
      WatchAdds(clients, watchers, n - 1, node, address, other);
      assert watchers[..n] == watchers[..n - 1] + [watchers[n - 1]];
    }
  }

  /** The client lists have no duplicates and hold exactly the pairs of address and node
      that the history observed, beside those that were there. */
  lemma {:induction false} ClientsAreHistory(cache: Cache, events: seq<Event>, address: string, node: string)
    ensures node in Listed(Run(cache, events).clients, address) <==>
              node in Listed(cache.clients, address) || Observed(cache, events, address, node)
    ensures NoDuplicates(Listed(cache.clients, address)) ==> NoDuplicates(Listed(Run(cache, events).clients, address))
  {
    if events != [] {
      var n := |events| - 1;
      var before := events[..n];
      ClientsAreHistory(cache, before, address, node);
      ObservedNext(cache, events, address, node);
      ApplyClients(Run(cache, before), events[n], address, node);
    }
  }

  lemma ApplyClients(cache: Cache, event: Event, address: string, node: string)
    ensures node in Listed(Apply(cache, event).clients, address) <==>
              node in Listed(cache.clients, address) ||
              (event.Added? && Observes(cache.config, event.pv, event.probe, address, node))
    ensures NoDuplicates(Listed(cache.clients, address)) ==> NoDuplicates(Listed(Apply(cache, event).clients, address))
  {
    if event.Added? && event.probe.watchers.Some? && event.probe.node.Some? {
      var watchers := event.probe.watchers.value;
      WatchAdds(cache.clients, watchers, |watchers|, event.probe.node.value, address, node);
      assert watchers[..|watchers|] == watchers;
    }
  }

  /** Which additions put their volume into the store: a claimed volume of the RBD driver
      with a CSI source, once the configuration is known, whose cluster is the one of the
      configuration. The configuration is read by the first addition of a claimed volume of
      that driver that can read it. A node is observed by an addition that puts its volume,
      lists the watchers and finds the node. */
  lemma PutsIff(cache: Cache, events: seq<Event>, i: nat, uid: string)
    requires i < |events| && events[i].Added?
    ensures var (pv, probe, before, after) :=
              (events[i].pv, events[i].probe, ConfigAt(cache, events, i), ConfigAt(cache, events, i + 1));
            && (after ==
                if HasSubstring(pv.provisioner, ".rbd.csi.ceph.com") && pv.claim.Some? && before == NO_CONFIG &&
                   probe.config.Some?
                then probe.config.value else before)
            && (Puts(cache, events, i, uid) <==>
                  && pv.uid == uid && HasSubstring(pv.provisioner, ".rbd.csi.ceph.com") && pv.claim.Some?
                  && pv.attributes.Some? && (before != NO_CONFIG || probe.config.Some?)
                  && after.clusterID ==
                     (if "clusterID" in pv.attributes.value then pv.attributes.value["clusterID"] else ""))
            && (forall address, node :: ObservedAt(cache, events, i, address, node) <==>
                  && Puts(cache, events, i, pv.uid) && probe.watchers.Some? && address in probe.watchers.value
                  && probe.node == Some(node) && node != "")
  {
    RunNext(cache, events[..i], events[i]);
    assert events[..i] + [events[i]] == events[..i + 1];
  }

  /** A configuration once read is kept. */
  lemma {:induction false} ConfigStays(cache: Cache, events: seq<Event>)
    requires cache.config != NO_CONFIG
    ensures Run(cache, events).config == cache.config
  {
    if events != [] { ConfigStays(cache, events[..|events| - 1]); }
  }

  /** Entry `i` of a replaced list puts its volume into the store. */
  ghost predicate ListPuts(cache: Cache, list: seq<PersistentVolume>, probes: seq<Probe>, i: nat, uid: string)
    requires i < |list| == |probes|
  {
    list[i].uid == uid &&
    Eligible(ConfigAt(cache, [Cleared] + Additions(list, probes), 1 + i), list[i], probes[i])
  }

  lemma ListPutsIsPuts(cache: Cache, list: seq<PersistentVolume>, probes: seq<Probe>, j: nat, uid: string)
    requires |probes| == |list| && 1 <= j <= |list|
    ensures Puts(cache, [Cleared] + Additions(list, probes), j, uid) <==> ListPuts(cache, list, probes, j - 1, uid)
    ensures !Takes(([Cleared] + Additions(list, probes))[j], uid)
  {
    assert ([Cleared] + Additions(list, probes))[j] == Added(list[j - 1], probes[j - 1]);
  }

  lemma ListPutIsLastPut(cache: Cache, list: seq<PersistentVolume>, probes: seq<Probe>, i: nat, uid: string)
    requires |probes| == |list| && i < |list| && ListPuts(cache, list, probes, i, uid)
    ensures SomeLastPut(cache, [Cleared] + Additions(list, probes), uid)
  {
    var events := [Cleared] + Additions(list, probes);
    ListPutsIsPuts(cache, list, probes, i + 1, uid);
    forall j | i + 1 < j < |events| ensures !Takes(events[j], uid) {
      ListPutsIsPuts(cache, list, probes, j, uid);
    }
    var k := LastOfPuts(cache, events, i + 1, uid);
  }

  lemma LastPutIsListPut(cache: Cache, list: seq<PersistentVolume>, probes: seq<Probe>, uid: string)
    requires |probes| == |list| && SomeLastPut(cache, [Cleared] + Additions(list, probes), uid)
    ensures exists i :: 0 <= i < |list| && ListPuts(cache, list, probes, i, uid)
  {
    var events := [Cleared] + Additions(list, probes);
    var i :| 0 <= i < |events| && LastPut(cache, events, i, uid);
    assert i != 0;
    ListPutsIsPuts(cache, list, probes, i, uid);
  }

  /** After a successful Replace the store holds exactly the eligible volumes of the list. */
  lemma ReplaceHoldsList(cache: Cache, list: seq<PersistentVolume>, probes: seq<Probe>, uid: string)
    requires |probes| == |list|
    ensures uid in Run(cache, [Cleared] + Additions(list, probes)).store <==>
              exists i :: 0 <= i < |list| && ListPuts(cache, list, probes, i, uid)
  {
    var events := [Cleared] + Additions(list, probes);
    StoreIsHistory(cache, events, uid);
    assert Mentions(cache, events, 0, uid) && !Unmentioned(cache, events, uid);
    if i :| 0 <= i < |list| && ListPuts(cache, list, probes, i, uid) {
      ListPutIsLastPut(cache, list, probes, i, uid);
    }
    if SomeLastPut(cache, events, uid) {
      LastPutIsListPut(cache, list, probes, uid);
    }
  }

  /** Where nothing takes the uid any more, some put of it is the last. */
  lemma {:induction false} LastOfPuts(cache: Cache, events: seq<Event>, i: nat, uid: string) returns (k: nat)
    requires i < |events| && Puts(cache, events, i, uid)
    requires forall j :: i < j < |events| ==> !Takes(events[j], uid)
    ensures i <= k < |events| && LastPut(cache, events, k, uid)
    decreases |events| - i
  {
    if j :| i < j < |events| && Puts(cache, events, j, uid) {
      k := LastOfPuts(cache, events, j, uid);
    } else {
      k := i;
    }
  }

  // ----- the blocklist and the collector

  datatype Address = Address(ip: string, port: int, nonce: int)

  /** An entry with nonce 0 blocks every client of its address and port. */
  ghost predicate Blocked(blocklist: seq<Address>, a: Address)
  {
    exists i :: 0 <= i < |blocklist| && Matches(blocklist[i], a)
  }

  predicate Matches(entry: Address, a: Address)
  {
    entry.ip == a.ip && entry.port == a.port && (entry.nonce == 0 || entry.nonce == a.nonce)
  }

  method IsBlocked(blocklist: seq<Address>, a: Address) returns (blocked: bool)
    ensures blocked == Blocked(blocklist, a)
    ensures blocked <==> exists i :: 0 <= i < |blocklist| && blocklist[i].ip == a.ip && blocklist[i].port == a.port &&
                                     (blocklist[i].nonce == 0 || blocklist[i].nonce == a.nonce)
  {
    for i := 0 to |blocklist|
      invariant forall k :: 0 <= k < i ==> !Matches(blocklist[k], a)
    {
      if Matches(blocklist[i], a) { return true; }
    }
    return false;
  }

  /** A client that can be read and is blocklisted was seen on the node. */
  ghost predicate NodeBlocked(clients: map<string, seq<string>>, blocklist: seq<Address>,
                              parse: string -> Option<Address>, node: string)
  {
    exists client :: client in clients && ClientBlocked(blocklist, parse, client) && node in clients[client]
  }

  ghost predicate ClientBlocked(blocklist: seq<Address>, parse: string -> Option<Address>, client: string)
  {
    parse(client).Some? && parse(client).value.ip != "" && Blocked(blocklist, parse(client).value)
  }

  /** The metric per node. When the nodes cannot be listed the map stays nil, and the first
      blocked node would be written to it, which ends in a panic (`None`). */
  method Collect(nodes: Option<seq<string>>, clients: map<string, seq<string>>, blocklist: seq<Address>,
                 parse: string -> Option<Address>)
    returns (metrics: Option<map<string, bool>>)
    ensures metrics.None? <==> nodes.None? && exists node :: NodeBlocked(clients, blocklist, parse, node)
    ensures metrics.Some? ==> forall node :: node in metrics.value <==>
              (nodes.Some? && node in nodes.value) || NodeBlocked(clients, blocklist, parse, node)
    ensures metrics.Some? ==> forall node :: node in metrics.value ==>
              (metrics.value[node] <==> NodeBlocked(clients, blocklist, parse, node))
  {
    var listed := if nodes.Some? then nodes.value else [];
    var blockedNodes: map<string, bool> := map node | node in listed :: false;
    var todo := clients.Keys;
    while todo != {}
      invariant todo <= clients.Keys
      invariant nodes.None? ==> blockedNodes == map[]
      invariant forall node :: node in blockedNodes <==>
                  node in listed || SeenBlocked(clients, clients.Keys - todo, blocklist, parse, node)
      invariant forall node :: node in blockedNodes ==>
                  (blockedNodes[node] <==> SeenBlocked(clients, clients.Keys - todo, blocklist, parse, node))
    {
      var client :| client in todo;
      ghost var seen := clients.Keys - todo;
      todo := todo - {client};
      assert clients.Keys - todo == seen + {client};
      var address := parse(client);
      var blocked := false;
      if address.Some? && address.value.ip != "" {
        blocked := IsBlocked(blocklist, address.value);
      }
      assert blocked == ClientBlocked(blocklist, parse, client);
      if blocked {
        if nodes.None? && clients[client] != [] {
          assert NodeBlocked(clients, blocklist, parse, clients[client][0]);
          return None;
        }
        blockedNodes := MarkAll(blockedNodes, clients[client]);
      }
    }
    assert clients.Keys - todo == clients.Keys;
    forall node ensures SeenBlocked(clients, clients.Keys, blocklist, parse, node) <==>
        NodeBlocked(clients, blocklist, parse, node) {
    }
    return Some(blockedNodes);
  }

  ghost predicate SeenBlocked(clients: map<string, seq<string>>, seen: set<string>, blocklist: seq<Address>,
                              parse: string -> Option<Address>, node: string)
  {
    exists client :: client in seen && client in clients && ClientBlocked(blocklist, parse, client) &&
        node in clients[client]
  }

  method MarkAll(blockedNodes: map<string, bool>, nodes: seq<string>) returns (marked: map<string, bool>)
    ensures forall node :: node in marked <==> node in blockedNodes || node in nodes
    ensures forall node :: node in marked ==> marked[node] == (node in nodes || blockedNodes[node])
  {
    marked := blockedNodes;
    for i := 0 to |nodes|
      invariant forall node :: node in marked <==> node in blockedNodes || node in nodes[..i]
      invariant forall node :: node in marked ==> marked[node] == (node in nodes[..i] || blockedNodes[node])
    {
      marked := marked[nodes[i] := true];
    }
  }

  /** From an empty cache, a node is reported as blocked exactly when some addition in the
      history observed a blocklisted client on it. */
  lemma BlockedIsHistory(events: seq<Event>, blocklist: seq<Address>, parse: string -> Option<Address>, node: string)
    ensures var empty := Cache(map[], map[], NO_CONFIG);
            NodeBlocked(Run(empty, events).clients, blocklist, parse, node) <==>
              exists client :: Observed(empty, events, client, node) && ClientBlocked(blocklist, parse, client)
    ensures forall client :: ClientBlocked(blocklist, parse, client) <==>
              parse(client).Some? && parse(client).value.ip != "" &&
              exists i :: 0 <= i < |blocklist| && blocklist[i].ip == parse(client).value.ip &&
                          blocklist[i].port == parse(client).value.port &&
                          (blocklist[i].nonce == 0 || blocklist[i].nonce == parse(client).value.nonce)
  {
    var empty := Cache(map[], map[], NO_CONFIG);
    var clients := Run(empty, events).clients;
    if NodeBlocked(clients, blocklist, parse, node) {
      var client :| client in clients && ClientBlocked(blocklist, parse, client) && node in clients[client];
      ClientsAreHistory(empty, events, client, node);
    }
    if client :| Observed(empty, events, client, node) && ClientBlocked(blocklist, parse, client) {
      ClientsAreHistory(empty, events, client, node);
    }
  }

  /** An entry with nonce 0 blocks every client of its address and port; any other entry
      blocks the one client with its nonce. */
  lemma NonceDecides(entry: Address, nonce: int)
    ensures Blocked([entry], Address(entry.ip, entry.port, nonce)) <==> entry.nonce == 0 || entry.nonce == nonce
    ensures forall a :: Blocked([entry], a) ==> a.ip == entry.ip && a.port == entry.port
  {
    assert [entry][0] == entry;
    assert Matches([entry][0], Address(entry.ip, entry.port, nonce)) <==> entry.nonce == 0 || entry.nonce == nonce;
  }

  /** Without a list of the nodes, one blocklisted client that was seen on a node is enough
      for the panic. */
  lemma CollectPanics()
    returns (clients: map<string, seq<string>>, blocklist: seq<Address>, parse: string -> Option<Address>)
    ensures clients == map["10.0.0.1:0/7" := ["worker-1"]] && blocklist == [Address("10.0.0.1", 0, 7)]
    ensures parse("10.0.0.1:0/7") == Some(blocklist[0])
    ensures exists node :: NodeBlocked(clients, blocklist, parse, node)
  {
    var client, address := "10.0.0.1:0/7", Address("10.0.0.1", 0, 7);
    clients, blocklist := map[client := ["worker-1"]], [address];
    parse := (text: string) => Some(Address("10.0.0.1", 0, 7));
    assert Matches(blocklist[0], address);
    assert ClientBlocked(blocklist, parse, client) && clients[client][0] == "worker-1";
    assert NodeBlocked(clients, blocklist, parse, "worker-1");
  }
}
