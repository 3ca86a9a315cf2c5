/** Keeping the backing storage classes of the API server in line with the spec. */
module BackingStorageClasses {
  import opened Collections

  datatype StorageClass = StorageClass(labelled: bool, provisioner: string, parameters: map<string, string>)

  /** An entry of the spec; its parameters may be absent, which is not the same as empty. */
  datatype BackingClass = BackingClass(name: string, provisioner: string, parameters: Option<map<string, string>>)

  datatype Platform = Undetermined | Aws | OtherPlatform

  type Classes = map<string, StorageClass>

  /** Every call may fail; `faulty` records that one did, `writes` counts the creations
      and deletions that went through. */
  class StorageClassApi {
    var classes: Classes
    ghost var faulty: bool
    ghost var writes: nat

    method List() returns (ok: bool, labelled: Classes)
      modifies this`faulty
      ensures ok ==> faulty == old(faulty)
      ensures ok ==> labelled == map name | name in classes && classes[name].labelled :: classes[name]
      ensures !ok ==> faulty
    {
      ok := *;
      labelled := map name | name in classes && classes[name].labelled :: classes[name];
      faulty := faulty || !ok;
    }

    method Get(name: string) returns (ok: bool, found: Option<StorageClass>)
      modifies this`faulty
      ensures ok ==> faulty == old(faulty) && found == if name in classes then Some(classes[name]) else None
      ensures !ok ==> faulty
    {
      ok := *;
      found := if name in classes then Some(classes[name]) else None;
      faulty := faulty || !ok;
    }

    method Create(name: string, c: StorageClass) returns (ok: bool)
      requires name !in classes
      modifies this
      ensures ok ==> classes == old(classes)[name := c] && faulty == old(faulty) && writes == old(writes) + 1
      ensures !ok ==> classes == old(classes) && faulty && writes == old(writes)
    {
      ok := *;
      if ok { classes, writes := classes[name := c], writes + 1; } else { faulty := true; }
    }

    /** A missing class is no fault; the callers that must not meet one never do. */
    method Delete(name: string) returns (ok: bool)
      modifies this
      ensures ok ==> classes == old(classes) - {name} && faulty == old(faulty)
      ensures ok ==> writes == old(writes) + if name in old(classes) then 1 else 0
      ensures !ok ==> classes == old(classes) && faulty && writes == old(writes)
    {
      ok := *;
      if ok {
        writes := writes + if name in classes then 1 else 0;
        classes := classes - {name};
      } else {
        faulty := true;
      }
    }
  }

  // ----- what a run without faults does

  /** The spec entry can be acted on: it has a name, and a provisioner is given or known
      for the platform. */
  predicate Valid(s: BackingClass, platform: Platform)
  {
    s.name != "" && platform != Undetermined && (s.provisioner != "" || platform == Aws)
  }

  function Given(s: BackingClass): map<string, string>
  {
    if s.parameters.Some? then s.parameters.value else map[]
  }

  function Desired(s: BackingClass): StorageClass
  {
    StorageClass(true, if s.provisioner == "" then "ebs.csi.aws.com" else s.provisioner, Given(s))
  }

  /** `reflect.DeepEqual` of the parameters of an entry and those read back from a class: a
      class without parameters is read back with none at all, so an empty map in the entry
      is never equal. */
  predicate SameParameters(given: Option<map<string, string>>, stored: map<string, string>)
  {
    if stored == map[] then given.None? else given == Some(stored)
  }

  /** The class needs no write in the eyes of the operator. */
  predicate InPlace(classes: Classes, s: BackingClass)
  {
    s.name in classes && SameParameters(s.parameters, classes[s.name].parameters)
  }

  /** The class is there with the parameters the entry asks for. */
  predicate Meets(classes: Classes, s: BackingClass)
  {
    s.name in classes && classes[s.name].parameters == Given(s)
  }

  function ApplyOne(classes: Classes, s: BackingClass, platform: Platform): Classes
  {
    if !Valid(s, platform) || InPlace(classes, s) then classes else classes[s.name := Desired(s)]
  }

  function ApplyAll(classes: Classes, specs: seq<BackingClass>, platform: Platform, n: nat): Classes
    requires n <= |specs|
  {
    if n == 0 then classes else ApplyOne(ApplyAll(classes, specs, platform, n - 1), specs[n - 1], platform)
  }

  ghost predicate Wanted(specs: seq<BackingClass>, platform: Platform, n: nat, name: string)
    requires n <= |specs|
  {
    exists k :: 0 <= k < n && specs[k].name == name && Valid(specs[k], platform)
  }

  /** Labelled classes that no valid entry asks for. */
  ghost function Strays(classes: Classes, specs: seq<BackingClass>, platform: Platform): set<string>
  {
    set name | name in classes && classes[name].labelled && !Wanted(specs, platform, |specs|, name)
  }

  ghost function Converged(classes: Classes, specs: seq<BackingClass>, platform: Platform): Classes
  {
    ApplyAll(classes, specs, platform, |specs|) - Strays(classes, specs, platform)
  }

  /** No entry needs a write on the way, and there is no stray. */
  ghost predicate Quiet(classes: Classes, specs: seq<BackingClass>, platform: Platform)
  {
    && Strays(classes, specs, platform) == {}
    && forall k :: 0 <= k < |specs| ==> QuietAt(classes, specs, platform, k)
  }

  ghost predicate QuietAt(classes: Classes, specs: seq<BackingClass>, platform: Platform, k: nat)
    requires k < |specs|
  {
    Valid(specs[k], platform) ==> InPlace(ApplyAll(classes, specs, platform, k), specs[k])
  }

  // ----- the methods

  /** What acting on one entry does to the classes: `wrote` says whether anything was
      written, `faulty` whether any call has failed by now. */
  ghost predicate Acted(s: BackingClass, platform: Platform, before: Classes, after: Classes, ok: bool, faulty: bool,
                        wrote: bool)
  {
    && (forall name :: name != s.name ==>
          (name in after <==> name in before) && (name in before ==> after[name] == before[name]))
    && (!Valid(s, platform) ==> !ok && after == before && !wrote)
    && (ok ==> after == ApplyOne(before, s, platform) && (wrote <==> !InPlace(before, s)))
    && (Valid(s, platform) && !faulty ==> ok)
  }

  method CreateOrUpdate(api: StorageClassApi, s: BackingClass, platform: Platform) returns (ok: bool)
    modifies api
    ensures Acted(s, platform, old(api.classes), api.classes, ok, api.faulty, api.writes != old(api.writes))
    ensures api.writes >= old(api.writes)
    ensures old(api.faulty) ==> api.faulty
    ensures ok || !Valid(s, platform) ==> api.faulty == old(api.faulty)
  {
    if s.name == "" { return false; }
    if platform == Undetermined { return false; }
    var desired := StorageClass(true, s.provisioner, Given(s));
    if s.provisioner == "" {
      if platform != Aws { return false; }
      desired := desired.(provisioner := "ebs.csi.aws.com");
    }
    var got, existing := api.Get(s.name);
    if !got { return false; }
    if existing.None? {
      ok := api.Create(s.name, desired);
    } else if !SameParameters(s.parameters, existing.value.parameters) {
      ok := api.Delete(s.name);
      if !ok { return; }
      ok := api.Create(s.name, desired);
    } else {
      ok := true;
    }
  }

  /** The first `n` entries need no write. */
  ghost predicate QuietUpTo(classes: Classes, specs: seq<BackingClass>, platform: Platform, n: nat)
    requires n <= |specs|
  {
    forall k :: 0 <= k < n ==> QuietAt(classes, specs, platform, k)
  }

  /** Classes that none of the first `n` entries names are as before. */
  ghost predicate Untouched(before: Classes, now: Classes, specs: seq<BackingClass>, n: nat)
    requires n <= |specs|
  {
    forall name :: !NamedBy(specs, n, name) ==>
                     (name in now <==> name in before) && (name in before ==> now[name] == before[name])
  }

  ghost predicate NamedBy(specs: seq<BackingClass>, n: nat, name: string)
    requires n <= |specs|
  {
    exists k :: 0 <= k < n && specs[k].name == name
  }

  /** The names that still stand for a class to delete. */
  ghost function Doomed(byName: map<string, Option<StorageClass>>): set<string>
  {
    set name | name in byName && byName[name].Some?
  }

  lemma NamedNext(specs: seq<BackingClass>, platform: Platform, n: nat, name: string)
    requires n < |specs|
    ensures NamedBy(specs, n + 1, name) <==> NamedBy(specs, n, name) || specs[n].name == name
    ensures Wanted(specs, platform, n + 1, name) <==>
            Wanted(specs, platform, n, name) || (specs[n].name == name && Valid(specs[n], platform))
  {
  }

  lemma QuietNext(classes: Classes, specs: seq<BackingClass>, platform: Platform, n: nat)
    requires n < |specs|
    ensures QuietUpTo(classes, specs, platform, n + 1) <==>
              QuietUpTo(classes, specs, platform, n) && QuietAt(classes, specs, platform, n)
  {
  }

  /** The names left to delete after one more entry. */
  lemma DoomedNext(byName: map<string, Option<StorageClass>>, labelled: Classes, specs: seq<BackingClass>,
                   platform: Platform, n: nat)
    requires n < |specs|
    requires Doomed(byName) == set name | name in labelled && !Wanted(specs, platform, n, name)
    ensures var next := if Valid(specs[n], platform) then byName[specs[n].name := None] else byName;
            Doomed(next) == set name | name in labelled && !Wanted(specs, platform, n + 1, name)
  {
    var next := if Valid(specs[n], platform) then byName[specs[n].name := None] else byName;
    forall name ensures name in Doomed(next) <==> name in labelled && !Wanted(specs, platform, n + 1, name) {
      NamedNext(specs, platform, n, name);
      assert name in Doomed(byName) <==> name in labelled && !Wanted(specs, platform, n, name);
      assert name in Doomed(next) <==> name in Doomed(byName) && !(Valid(specs[n], platform) && name == specs[n].name);
    }
  }

  /** What the loop over the spec has done after `n` entries: entries that could be acted
      on have their class and no longer stand for one to delete. `wrote` and `faulty` are
      about the whole loop so far. */
  ghost predicate Taken(before: Classes, now: Classes, labelled: Classes, byName: map<string, Option<StorageClass>>,
                        specs: seq<BackingClass>, platform: Platform, n: nat, faulty: bool, wrote: bool)
    requires n <= |specs|
  {
    && Untouched(before, now, specs, n)
    && Doomed(byName) <= labelled.Keys
    && (forall name :: name in labelled && !NamedBy(specs, n, name) ==> name in Doomed(byName))
    && (!faulty ==>
          && now == ApplyAll(before, specs, platform, n)
          && (Doomed(byName) == set name | name in labelled && !Wanted(specs, platform, n, name))
          && (wrote <==> !QuietUpTo(before, specs, platform, n)))
  }

  lemma TakenFrame(before: Classes, now: Classes, after: Classes, labelled: Classes, byName: map<string,
                   Option<StorageClass>>,
                   specs: seq<BackingClass>, platform: Platform, n: nat, ok: bool)
    requires n < |specs| && Untouched(before, now, specs, n)
    requires forall name :: name != specs[n].name ==>
               (name in after <==> name in now) && (name in now ==> after[name] == now[name])
    requires forall name :: name in labelled && !NamedBy(specs, n, name) ==> name in Doomed(byName)
    ensures Untouched(before, after, specs, n + 1)
    ensures var next := if ok then byName[specs[n].name := None] else byName;
            && Doomed(next) <= Doomed(byName)
            && forall name :: name in labelled && !NamedBy(specs, n + 1, name) ==> name in Doomed(next)
  {
    forall name { NamedNext(specs, platform, n, name); }
  }

  lemma TakenNext(before: Classes, now: Classes, after: Classes, labelled: Classes, byName: map<string,
                  Option<StorageClass>>,
                  specs: seq<BackingClass>, platform: Platform, n: nat, ok: bool,
                  faulty0: bool, wrote0: bool, faulty1: bool, wrote1: bool)
    requires n < |specs| && Taken(before, now, labelled, byName, specs, platform, n, faulty0, wrote0)
    requires Acted(specs[n], platform, now, after, ok, faulty1, wrote1)
    requires faulty0 ==> faulty1
    ensures Taken(before, after, labelled, if ok then byName[specs[n].name := None] else byName,
                  specs, platform, n + 1, faulty1, wrote0 || wrote1)
  {
    TakenFrame(before, now, after, labelled, byName, specs, platform, n, ok);
    if !faulty1 {
      DoomedNext(byName, labelled, specs, platform, n);
      QuietNext(before, specs, platform, n);
    }
  }

  /** The loop over the spec: every entry that could be acted on gets its class and a
      tombstone in the map. */
  method TakeOver(api: StorageClassApi, specs: seq<BackingClass>, platform: Platform, labelled: Classes)
    returns (byName: map<string, Option<StorageClass>>)
    modifies api
    ensures old(api.faulty) ==> api.faulty
    ensures api.writes >= old(api.writes)
    ensures Taken(old(api.classes), api.classes, labelled, byName, specs, platform, |specs|,
                  api.faulty, api.writes != old(api.writes))
  {
    ghost var before, writes := api.classes, api.writes;
    byName := map name | name in labelled :: Some(labelled[name]);
    for i := 0 to |specs|
      invariant old(api.faulty) ==> api.faulty
      invariant api.writes >= writes
      invariant Taken(before, api.classes, labelled, byName, specs, platform, i, api.faulty, api.writes != writes)
    {
      ghost var now, faulty0, writes0 := api.classes, api.faulty, api.writes;
      var taken := CreateOrUpdate(api, specs[i], platform);
      TakenNext(before, now, api.classes, labelled, byName, specs, platform, i, taken,
                faulty0, writes0 != writes, api.faulty, api.writes != writes0);
      if taken {
        byName := byName[specs[i].name := None];
      }
    }
  }

  /** The deletion loop over what is left of the map. */
  method Sweep(api: StorageClassApi, byName: map<string, Option<StorageClass>>) returns (ok: bool)
    modifies api
    ensures old(api.faulty) ==> api.faulty
    ensures forall name :: name in old(api.classes) && name !in Doomed(byName) ==>
              name in api.classes && api.classes[name] == old(api.classes)[name]
    ensures ok ==> api.faulty == old(api.faulty) && api.classes == old(api.classes) - Doomed(byName)
    ensures !ok ==> api.faulty
    ensures api.writes >= old(api.writes)
    ensures !api.faulty ==> (api.writes == old(api.writes) <==> Doomed(byName) !! old(api.classes).Keys)
  {
    ghost var before := api.classes;
    var hasErrors := false;
    var todo := byName.Keys;
    while todo != {}
      invariant todo <= byName.Keys
      invariant old(api.faulty) ==> api.faulty
      invariant hasErrors ==> api.faulty
      invariant !hasErrors ==> api.faulty == old(api.faulty)
      invariant forall name :: name in before && name !in Doomed(byName) ==>
                  name in api.classes && api.classes[name] == before[name]
      invariant !hasErrors ==> api.classes == before - (Doomed(byName) - todo)
      invariant api.writes >= old(api.writes)
      invariant !api.faulty ==> (api.writes == old(api.writes) <==> (Doomed(byName) - todo) !! before.Keys)
    {
      var name :| name in todo;
      ghost var rest := todo;
      todo := todo - {name};
      if byName[name].None? {
        assert Doomed(byName) - todo == Doomed(byName) - rest;
        continue;
      }
      assert Doomed(byName) - todo == (Doomed(byName) - rest) + {name};
      var deleted := api.Delete(name);
      if !deleted { hasErrors := true; }
    }
    assert Doomed(byName) - todo == Doomed(byName);
    return !hasErrors;
  }

  /** `ensureCreated`. Whatever fails, unlabelled classes that the spec does not name are
      never touched, an error means that a call failed, and success that every labelled
      class is one the spec names. Without a fault the result is determined, and nothing is
      written exactly when nothing needs to be. */
  method EnsureCreated(api: StorageClassApi, specs: seq<BackingClass>, platform: Platform) returns (ok: bool)
    requires !api.faulty
    modifies api
    ensures forall name | name in old(api.classes) && !NamedBy(specs, |specs|, name) ::
              !old(api.classes)[name].labelled ==> name in api.classes && api.classes[name] == old(api.classes)[name]
    ensures !ok ==> api.faulty
    ensures ok ==> forall name :: name in api.classes && api.classes[name].labelled ==> NamedBy(specs, |specs|, name)
    ensures !api.faulty ==> api.classes == Converged(old(api.classes), specs, platform)
    ensures !api.faulty ==> (api.writes == old(api.writes) <==> Quiet(old(api.classes), specs, platform))
  {
    ghost var before := api.classes;
    var listed, labelled := api.List();
    if !listed { return false; }
    var byName := TakeOver(api, specs, platform, labelled);
    ghost var applied := api.classes;
    ok := Sweep(api, byName);
    if !api.faulty {
      assert Doomed(byName) == Strays(before, specs, platform);
      forall name | name in Doomed(byName) ensures name in applied {
        UnwantedUnchanged(before, specs, platform, |specs|, name);
      }
    }
  }

  // ----- convergence

  lemma {:induction false} UnwantedUnchanged(classes: Classes, specs: seq<BackingClass>, platform: Platform, n: nat,
                                             name: string)
    requires n <= |specs| && !Wanted(specs, platform, n, name)
    ensures name in ApplyAll(classes, specs, platform, n) <==> name in classes
    ensures name in classes ==> ApplyAll(classes, specs, platform, n)[name] == classes[name]
  {
    if n > 0 {
      NamedNext(specs, platform, n - 1, name);
      UnwantedUnchanged(classes, specs, platform, n - 1, name);
    }
  }

  /** Valid entries of one name ask for one set of parameters. */
  ghost predicate Consistent(specs: seq<BackingClass>, platform: Platform)
  {
    forall i, j |
      0 <= i < |specs| && 0 <= j < |specs| && specs[i].name == specs[j].name ::
      Valid(specs[i], platform) && Valid(specs[j], platform) ==> Given(specs[i]) == Given(specs[j])
  }

  /** No valid entry has parameters that are present but empty. */
  ghost predicate NoEmptyMaps(specs: seq<BackingClass>, platform: Platform)
  {
    forall i :: 0 <= i < |specs| && Valid(specs[i], platform) ==> specs[i].parameters != Some(map[])
  }

  /** After all entries the class of a valid one is there with its parameters. */
  lemma {:induction false} WantedInPlace(classes: Classes, specs: seq<BackingClass>, platform: Platform, n: nat, k: nat)
    requires k < n <= |specs| && Valid(specs[k], platform) && Consistent(specs, platform)
    ensures Meets(ApplyAll(classes, specs, platform, n), specs[k])
  {
    if k < n - 1 {
      WantedInPlace(classes, specs, platform, n - 1, k);
    }
  }

  /** One run without faults, from any state: every valid entry has its class with its
      parameters, every labelled class is one the spec asks for, and every other class
      that no valid entry names is as it was. */
  lemma ConvergedMeets(classes: Classes, specs: seq<BackingClass>, platform: Platform)
    requires Consistent(specs, platform)
    ensures var after := Converged(classes, specs, platform);
            && (forall k :: 0 <= k < |specs| && Valid(specs[k], platform) ==> Meets(after, specs[k]))
            && (forall name :: name in after && after[name].labelled ==> Wanted(specs, platform, |specs|, name))
            && (forall name :: name in classes && !classes[name].labelled && !Wanted(specs, platform, |specs|, name) ==>
                  name in after && after[name] == classes[name])
  {
    var after := Converged(classes, specs, platform);
    forall k | 0 <= k < |specs| && Valid(specs[k], platform) ensures Meets(after, specs[k]) {
      WantedInPlace(classes, specs, platform, |specs|, k);
      assert Wanted(specs, platform, |specs|, specs[k].name);
    }
    forall name | !Wanted(specs, platform, |specs|, name) {
      UnwantedUnchanged(classes, specs, platform, |specs|, name);
    }
  }

  // ----- provisioner and label

  /** From position `m` on no valid entry has the name. */
  ghost predicate NotWantedFrom(specs: seq<BackingClass>, platform: Platform, m: nat, name: string)
  {
    forall i :: m <= i < |specs| && specs[i].name == name ==> !Valid(specs[i], platform)
  }

  lemma {:induction false} LaterEntriesKeep(classes: Classes, specs: seq<BackingClass>, platform: Platform,
                                            m: nat, n: nat, name: string)
    requires m <= n <= |specs| && NotWantedFrom(specs, platform, m, name)
    ensures name in ApplyAll(classes, specs, platform, n) <==> name in ApplyAll(classes, specs, platform, m)
    ensures name in ApplyAll(classes, specs, platform, m) ==>
              ApplyAll(classes, specs, platform, n)[name] == ApplyAll(classes, specs, platform, m)[name]
  {
    if m < n { LaterEntriesKeep(classes, specs, platform, m, n - 1, name); }
  }

  /** Only parameters are compared. The class of a valid entry, the only one of its name, ends
      up exactly as the entry asks, provisioner and label included, if and only if the class
      was that already whenever its parameters were right. */
  lemma ClassAsDesiredIff(classes: Classes, specs: seq<BackingClass>, platform: Platform, k: nat)
    requires k < |specs| && Valid(specs[k], platform)
    requires !Wanted(specs, platform, k, specs[k].name) && NotWantedFrom(specs, platform, k + 1, specs[k].name)
    ensures var (s, after) := (specs[k], Converged(classes, specs, platform));
            var asked := StorageClass(true, if s.provisioner == "" then "ebs.csi.aws.com" else s.provisioner,
                                      if s.parameters.Some? then s.parameters.value else map[]);
            s.name in after &&
            (after[s.name] == asked <==> (InPlace(classes, s) ==> classes[s.name] == asked))
  {
    var name := specs[k].name;
    UnwantedUnchanged(classes, specs, platform, k, name);
    LaterEntriesKeep(classes, specs, platform, k + 1, |specs|, name);
    assert Wanted(specs, platform, |specs|, name);
  }

  /** A missing class that one entry names is created if and only if the entry has a name,
      the platform is known, and a provisioner is given unless the platform is AWS. */
  lemma MissingClassIsCreatedIff(classes: Classes, specs: seq<BackingClass>, platform: Platform, k: nat)
    requires k < |specs| && specs[k].name !in classes
    requires forall i :: 0 <= i < |specs| && specs[i].name == specs[k].name ==> i == k
    ensures var (s, after) := (specs[k], Converged(classes, specs, platform));
            && (s.name in after <==>
                  s.name != "" && platform != Undetermined && (s.provisioner != "" || platform == Aws))
            && (s.name in after ==>
                  after[s.name] ==
                  StorageClass(true, if s.provisioner == "" then "ebs.csi.aws.com" else s.provisioner,
                               if s.parameters.Some? then s.parameters.value else map[]))
  {
    if Valid(specs[k], platform) {
      ClassAsDesiredIff(classes, specs, platform, k);
    } else {
      UnwantedUnchanged(classes, specs, platform, |specs|, specs[k].name);
    }
  }

  /** A quiet state stays the same entry after entry. */
  lemma {:induction false} QuietSteps(classes: Classes, specs: seq<BackingClass>, platform: Platform, n: nat)
    requires n <= |specs|
    requires forall k :: 0 <= k < n && Valid(specs[k], platform) ==> InPlace(classes, specs[k])
    ensures ApplyAll(classes, specs, platform, n) == classes && QuietUpTo(classes, specs, platform, n)
  {
    if n > 0 {
      QuietSteps(classes, specs, platform, n - 1);
    }
  }

  lemma {:induction false} QuietUpToKeeps(classes: Classes, specs: seq<BackingClass>, platform: Platform, n: nat)
    requires n <= |specs| && QuietUpTo(classes, specs, platform, n)
    ensures ApplyAll(classes, specs, platform, n) == classes
  {
    if n > 0 {
      QuietUpToKeeps(classes, specs, platform, n - 1);
      assert QuietAt(classes, specs, platform, n - 1);
    }
  }

  /** The second run creates and deletes nothing exactly when no two valid entries of one
      name disagree on the parameters and none has an empty map for them. */
  lemma SecondRunIsQuiet(classes: Classes, specs: seq<BackingClass>, platform: Platform)
    ensures var after := Converged(classes, specs, platform);
            Quiet(after, specs, platform) <==> Consistent(specs, platform) && NoEmptyMaps(specs, platform)
  {
    var after := Converged(classes, specs, platform);
    if Consistent(specs, platform) && NoEmptyMaps(specs, platform) {
      ConvergedMeets(classes, specs, platform);
      QuietSteps(after, specs, platform, |specs|);
    }
    if Quiet(after, specs, platform) {
      forall i | 0 <= i < |specs| && Valid(specs[i], platform) ensures InPlace(after, specs[i]) {
        assert QuietAt(after, specs, platform, i);
        QuietUpToKeeps(after, specs, platform, i);
      }
    }
  }

  /** A quiet run changes nothing. */
  lemma QuietMeansUnchanged(classes: Classes, specs: seq<BackingClass>, platform: Platform)
    requires Quiet(classes, specs, platform)
    ensures Converged(classes, specs, platform) == classes
  {
    QuietUpToKeeps(classes, specs, platform, |specs|);
  }

  /** An entry that cannot be acted on does not protect its class: a labelled class of that
      name is deleted. */
  lemma InvalidEntryLosesClass(classes: Classes, specs: seq<BackingClass>, platform: Platform, k: nat)
    requires k < |specs| && specs[k].name in classes && classes[specs[k].name].labelled
    ensures specs[k].name in Converged(classes, specs, platform) <==> Wanted(specs, platform, |specs|, specs[k].name)
  {
    var name := specs[k].name;
    if Wanted(specs, platform, |specs|, name) {
      StillThere(classes, specs, platform, |specs|, name);
    }
  }

  lemma {:induction false} StillThere(classes: Classes, specs: seq<BackingClass>, platform: Platform, n: nat,
                                      name: string)
    requires n <= |specs| && name in classes
    ensures name in ApplyAll(classes, specs, platform, n)
  {
    if n > 0 { StillThere(classes, specs, platform, n - 1, name); }
  }

  // ----- concrete inputs

  /** Two entries of one name that disagree are rewritten in every run. */
  lemma DisagreeingEntriesNeverSettle() returns (specs: seq<BackingClass>)
    ensures forall i :: 0 <= i < |specs| ==> Valid(specs[i], OtherPlatform) && specs[i].parameters != Some(map[])
    ensures forall classes :: !Quiet(Converged(classes, specs, OtherPlatform), specs, OtherPlatform)
  {
    var one, two := map["type" := "gp2"], map["type" := "gp3"];
    assert one["type"] == "gp2" && "gp2"[2] != "gp3"[2];
    specs := [BackingClass("a", "p", Some(one)), BackingClass("a", "p", Some(two))];
    assert Given(specs[0]) != Given(specs[1]);
    assert !Consistent(specs, OtherPlatform);
    forall classes { SecondRunIsQuiet(classes, specs, OtherPlatform); }
  }

  /** So is a single entry with an empty map of parameters. */
  lemma EmptyMapNeverSettles() returns (specs: seq<BackingClass>)
    ensures Consistent(specs, OtherPlatform) && |specs| == 1 && Valid(specs[0], OtherPlatform)
    ensures forall classes :: !Quiet(Converged(classes, specs, OtherPlatform), specs, OtherPlatform)
  {
    specs := [BackingClass("a", "p", Some(map[]))];
    assert specs[0].parameters == Some(map[]);
    forall classes { SecondRunIsQuiet(classes, specs, OtherPlatform); }
  }

  /** An entry that names no provisioner, on a platform without a known one, does not keep
      its class. */
  lemma InvalidEntryWitness() returns (classes: Classes, specs: seq<BackingClass>)
    ensures |specs| == 1 && specs[0].name in classes && classes[specs[0].name].labelled
    ensures specs[0].name !in Converged(classes, specs, OtherPlatform)
  {
    specs := [BackingClass("a", "", None)];
    classes := map["a" := StorageClass(true, "p", map[])];
    assert specs[0].name == "a";
    InvalidEntryLosesClass(classes, specs, OtherPlatform, 0);
  }

  /** A class of another provisioner and without the label is left as it is. */
  lemma ForeignClassStays() returns (classes: Classes, specs: seq<BackingClass>)
    ensures |specs| == 1 && Valid(specs[0], OtherPlatform) && specs[0].name in classes
    ensures classes[specs[0].name].provisioner != Desired(specs[0]).provisioner && !classes[specs[0].name].labelled
    ensures Converged(classes, specs, OtherPlatform) == classes
  {
    specs := [BackingClass("a", "p", None)];
    classes := map["a" := StorageClass(false, "q", map[])];
    assert "p"[0] != "q"[0] && specs[0].name == "a";
    assert ApplyAll(classes, specs, OtherPlatform, 0) == classes;
    assert ApplyAll(classes, specs, OtherPlatform, 1) == classes;
    assert Strays(classes, specs, OtherPlatform) == {};
  }
}
