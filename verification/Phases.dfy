/** One run of `reconcilePhases`: the election gate, the loop over the resource managers,
    the final phase and the operator's upgrade gate. */
module Phases {
  import opened Collections
  import opened Clusters
  import Election
  import opened C = Conditions
  import D = DeviceSets

  datatype Manager =
    | ExternalResources | ProviderServer | StorageClient | BackingStorageClasses | TopologyMap
    | StorageQuota | CephConfig | CephCluster | CephBlockPools | CephFilesystems | CephNFS
    | CephNFSService | CephObjectStores | CephObjectStoreUsers | CephRGWRoutes | StorageClasses
    | NoobaaSystem | SnapshotClass | JobTemplates | CephRbdMirrors | ClusterClaim

  /** The managers in the order of the source. */
  function Managers(external: bool, standalone: bool): (objs: seq<Manager>)
    ensures objs != [] && objs[0] != CephCluster
  {
    if external then
      [ExternalResources, StorageQuota, CephCluster, SnapshotClass, NoobaaSystem, ClusterClaim]
    else if standalone then
      [NoobaaSystem]
    else
      [ProviderServer, StorageClient, BackingStorageClasses, TopologyMap, StorageQuota, CephConfig,
       CephCluster, CephBlockPools, CephFilesystems, CephNFS, CephNFSService, CephObjectStores,
       CephObjectStoreUsers, CephRGWRoutes, StorageClasses, NoobaaSystem, SnapshotClass, JobTemplates,
       CephRbdMirrors, ClusterClaim]
  }

  /** The errors `reconcilePhases` tells apart. */
  datatype Failure = NoFailure | NotFound | ClassesSkipped | OtherFailure

  datatype Outcome = Outcome(failure: Failure, requeue: bool)

  const FINE := Outcome(NoFailure, false)

  /** What the CephCluster manager meets: nothing to manage, an error before the state is
      read, no CephCluster yet (one is created), one that is only initialised, or one with
      a state and OSD sets. `differs` says whether the specs differ at all. */
  datatype CephView =
    | CephUnmanaged
    | CephFailed
    | CephCreated
    | CephInitOnly
    | CephFound(state: CephState, found: seq<D.OsdSet>, desired: seq<D.OsdSet>, differs: bool, late: Failure)

  datatype CephReading = CephMissing | CephUnreadable | CephIn(state: CephState)

  /** What the NooBaa manager meets: whether it has to act at all, the CephCluster it waits
      for, an error on the way to NooBaa, and the phase of NooBaa. */
  datatype NoobaaView = NoobaaView(
    inOperatorNamespace: bool, ignored: bool, ceph: CephReading, failure: Failure, phase: NoobaaPhase)

  datatype Annotations = Kept | Updated | UpdateFailed
  datatype Deletion = Cleaned | CleanupPending
  datatype Profile = Unchanged | Applied | Applying | ProfileFailed | ProfileError

  /** Everything one run reads from its surroundings. */
  datatype Surroundings = Surroundings(
    operatorNamespace: string,
    standalone: bool,
    hasFinalizer: bool,
    finalizerUpdated: bool,
    annotations: Annotations,
    deletion: Deletion,
    ceph: CephView,
    noobaa: NoobaaView,
    outcomes: map<Manager, Outcome>,
    profile: Profile,
    remoteConsumers: bool,
    unsupportedClients: Option<nat>)

  /** `Unpublished` is a run that failed at the very end, when the operator's Upgradeable
      condition could not be published. */
  datatype Result = LostElection | StoppedEarly | Failed | Requeued | Terminated | Unpublished | Completed

  // ----- what a run can see

  predicate CephIsNegative(view: CephView, external: bool)
  {
    view.CephCreated? ||
    (view.CephFound? &&
     (view.state == Unreported ||
      (if external then view.state == C.Connecting || view.state == C.Error else CephNegative(view.state))))
  }

  /** NooBaa is reconciled only in the operator's namespace, unless it is ignored, and
      waits for a created or connected CephCluster unless it stands alone. */
  predicate NoobaaWanted(view: NoobaaView, external: bool, standalone: bool)
  {
    && view.inOperatorNamespace && !view.ignored
    && (standalone || view.ceph == CephIn(if external then C.Connected else C.Created))
  }

  predicate NoobaaSeen(view: NoobaaView, external: bool, standalone: bool)
  {
    NoobaaWanted(view, external, standalone) && view.failure == NoFailure
  }

  predicate NoobaaIsNegative(view: NoobaaView, external: bool, standalone: bool)
  {
    NoobaaSeen(view, external, standalone) && view.phase != NbReady
  }

  ghost predicate Expands(view: CephView)
  {
    view.CephFound? && view.differs && D.Detected(view.found, view.desired)
  }

  predicate CephInProgress(view: CephView)
  {
    view.CephCreated? ||
    (view.CephFound? && (view.state == Unreported || view.state == Creating || view.state == C.Updating))
  }

  predicate NoobaaInProgress(view: NoobaaView, external: bool, standalone: bool)
  {
    NoobaaSeen(view, external, standalone) && NoobaaSays(Some(view.phase), C.Progressing) == Some(True)
  }

  function CephOutcome(view: CephView): Outcome
  {
    match view
    case CephFailed => Outcome(OtherFailure, false)
    case CephFound(_, _, _, _, late) => Outcome(late, false)
    case _ => FINE
  }

  function NoobaaOutcome(view: NoobaaView, external: bool, standalone: bool): Outcome
  {
    if NoobaaWanted(view, external, standalone) then Outcome(view.failure, false)
    else if view.inOperatorNamespace && !view.ignored && !standalone &&
        view.ceph == CephUnreadable then Outcome(OtherFailure, false)
    else FINE
  }

  // What one manager contributes.

  predicate NegativeFrom(obj: Manager, env: Surroundings, external: bool)
  {
    (obj == CephCluster && CephIsNegative(env.ceph, external)) ||
        (obj == NoobaaSystem && NoobaaIsNegative(env.noobaa, external, env.standalone))
  }

  predicate ProgressFrom(obj: Manager, env: Surroundings)
  {
    || (obj == CephCluster && CephInProgress(env.ceph))
    || (obj == NoobaaSystem && NoobaaInProgress(env.noobaa, false, env.standalone))
  }

  /** How the turn of a manager ends. */
  function OutcomeOf(obj: Manager, env: Surroundings, external: bool): Outcome
  {
    if obj == CephCluster then CephOutcome(env.ceph)
    else if obj == NoobaaSystem then NoobaaOutcome(env.noobaa, external, env.standalone)
    else if obj in env.outcomes then env.outcomes[obj]
    else FINE
  }

  predicate AllFine(objs: seq<Manager>, env: Surroundings, external: bool)
  {
    forall k :: 0 <= k < |objs| ==> OutcomeOf(objs[k], env, external) == FINE
  }

  ghost predicate ExpansionFrom(obj: Manager, env: Surroundings)
  {
    obj == CephCluster && Expands(env.ceph)
  }

  // What the managers of a list contribute together.

  ghost predicate SawNegative(objs: seq<Manager>, env: Surroundings, external: bool)
  {
    exists k :: 0 <= k < |objs| && NegativeFrom(objs[k], env, external)
  }

  ghost predicate SawProgress(objs: seq<Manager>, env: Surroundings)
  {
    exists k :: 0 <= k < |objs| && ProgressFrom(objs[k], env)
  }

  ghost predicate SawExpansion(objs: seq<Manager>, env: Surroundings)
  {
    exists k :: 0 <= k < |objs| && ExpansionFrom(objs[k], env)
  }

  class Instance {
    var phase: Phase
    const conditions: ConditionList

    constructor (phase: Phase, conditions: ConditionList)
      ensures this.phase == phase && this.conditions == conditions
    {
      this.phase, this.conditions := phase, conditions;
    }
  }

  class Reconciler {
    /** Empty, or Expanding once an expansion was seen in this run. */
    var phase: Phase
    const conditions: ConditionList
    /** The value of the operator's Upgradeable condition that this run published. */
    var published: Option<bool>
    /** A publication failed in this run. */
    ghost var unpublished: bool

    constructor ()
      ensures phase == Empty && published == None && !unpublished
      ensures fresh(conditions) && conditions.items == []
    {
      phase, published, unpublished := Empty, None, false;
      conditions := new ConditionList();
    }

    /** Publishing may fail. An earlier error is kept, except that not-found is dropped. */
    method SetOperatorConditions(upgradeable: bool, earlier: Failure) returns (failure: Failure)
      requires !unpublished
      modifies this`published, this`unpublished
      ensures published == if unpublished then old(published) else Some(upgradeable)
      ensures failure == Joined(earlier, unpublished)
    {
      var done := *;
      unpublished := !done;
      if done { published := Some(upgradeable); }
      if earlier == ClassesSkipped || earlier == OtherFailure {
        return earlier;
      }
      return if done then NoFailure else OtherFailure;
    }
  }

  /** The error after an attempt to publish. */
  function Joined(earlier: Failure, unpublished: bool): Failure
  {
    if earlier == ClassesSkipped || earlier == OtherFailure then earlier
    else if unpublished then OtherFailure
    else NoFailure
  }

  /** The phase the bookkeeping leaves when no expansion was seen. */
  function PhaseKept(phase: Phase): Phase
  {
    if phase == Ready || phase == Onboarding || phase == Phase.Connecting then phase else Phase.Progressing
  }

  /** What the state of an external CephCluster makes of the phase by the end of its
      manager's turn: NotReady, set for any other state, does not outlive the bookkeeping. */
  function ExternalPhase(state: CephState): Phase
  {
    match state
    case Connecting => Phase.Connecting
    case Connected => Ready
    case _ => Phase.Progressing
  }

  /** An instance that meets the CephCluster manager as Expanding goes on expanding unless
      the CephCluster is being updated. */
  predicate StaysExpanding(obj: Manager, env: Surroundings, phase: Phase)
  {
    obj == CephCluster && env.ceph.CephFound? && phase == Expanding && env.ceph.state != C.Updating
  }

  /** What the turn of one manager makes of the phases and the gathered conditions. */
  ghost predicate Contributed(obj: Manager, env: Surroundings, external: bool,
                              sc0: Phase, r0: Phase, conditions0: seq<Condition>,
                              sc1: Phase, r1: Phase, conditions1: seq<Condition>)
  {
    && OneEach(conditions1)
    && (r1 == Empty || r1 == Expanding)
    && (r1 == Expanding <==> r0 == Expanding || (!external && ExpansionFrom(obj, env)) || StaysExpanding(obj, env, sc0))
    && (obj != CephCluster || !external || !env.ceph.CephFound? ==> sc1 == sc0)
    && (external && obj == CephCluster && env.ceph.CephFound? ==> PhaseKept(sc1) == ExternalPhase(env.ceph.state))
    && (conditions1 == [] <==> conditions0 == [] && !NegativeFrom(obj, env, external))
    && (StatusOf(conditions0, C.Progressing) == Some(True) || (!external && ProgressFrom(obj, env)) ==>
          StatusOf(conditions1, C.Progressing) == Some(True))
  }

  /** The conditions for a CephCluster that was found in some state. */
  method MapState(state: CephState, external: bool, conditions: ConditionList)
    requires OneEach(conditions.items)
    modifies conditions
    ensures OneEach(conditions.items)
    ensures conditions.items == [] <==>
              && old(conditions.items) == []
              && state != Unreported
              && !(if external then state == C.Connecting || state == C.Error else CephNegative(state))
    ensures StatusOf(old(conditions.items), C.Progressing) == Some(True) ||
            state == Unreported || (!external && (state == Creating || state == C.Updating)) ==>
              StatusOf(conditions.items, C.Progressing) == Some(True)
  {
    if state == Unreported {
      conditions.MapCephClusterNoConditions();
    } else if external {
      conditions.MapExternalCephClusterNegativeConditions(state);
    } else {
      conditions.MapCephClusterNegativeConditions(state);
    }
  }

  /** The CephCluster manager. An instance that is not already Expanding becomes Expanding
      only by the comparison of the OSD sets. */
  method EnsureCephCluster(env: Surroundings, external: bool, r: Reconciler, sc: Instance) returns (outcome: Outcome)
    requires OneEach(r.conditions.items) && (r.phase == Empty || r.phase == Expanding)
    modifies r`phase, r.conditions, sc`phase
    ensures outcome == OutcomeOf(CephCluster, env, external)
    ensures Contributed(CephCluster, env, external, old(sc.phase), old(r.phase), old(r.conditions.items),
                        sc.phase, r.phase, r.conditions.items)
  {
    match env.ceph {
      case CephUnmanaged => return FINE;
      case CephFailed => return Outcome(OtherFailure, false);
      case CephCreated =>
        r.conditions.MapCephClusterNoConditions();
        return FINE;
      case CephInitOnly => return FINE;
      case CephFound(state, found, desired, differs, late) =>
        MapState(state, external, r.conditions);
        if sc.phase == Expanding && state != C.Updating {
          r.phase := Expanding;
        }
        if external {
          if state == C.Connecting {
            sc.phase := Phase.Connecting;
          } else if state == C.Connected {
            sc.phase := Ready;
          } else {
            sc.phase := NotReady;
          }
        }
        if differs && !external {
          var expanding := D.IsExpanding(found, desired);
          if expanding { r.phase := Expanding; }
        }
        return Outcome(late, false);
    }
  }

  method EnsureNoobaaSystem(env: Surroundings, external: bool, r: Reconciler, ghost phase: Phase)
    returns (outcome: Outcome)
    requires OneEach(r.conditions.items) && (r.phase == Empty || r.phase == Expanding)
    modifies r.conditions
    ensures outcome == OutcomeOf(NoobaaSystem, env, external)
    ensures Contributed(NoobaaSystem, env, external, phase, r.phase, old(r.conditions.items),
                        phase, r.phase, r.conditions.items)
  {
    var view, standalone := env.noobaa, env.standalone;
    if !view.inOperatorNamespace { return FINE; }
    if view.ignored { return FINE; }
    if !standalone {
      match view.ceph {
        case CephMissing => return FINE;
        case CephUnreadable => return Outcome(OtherFailure, false);
        case CephIn(state) =>
          if !external {
            if state != C.Created { return FINE; }
          } else {
            if state != C.Connected { return FINE; }
          }
      }
    }
    if view.failure != NoFailure { return Outcome(view.failure, false); }
    r.conditions.MapNoobaaNegativeConditions(Some(view.phase));
    return FINE;
  }

  /** The phase of an instance between two managers. */
  predicate Between(sc: Phase, r: Phase)
  {
    if r == Expanding then sc == Expanding
    else sc == Ready || sc == Onboarding || sc == Phase.Connecting || sc == Phase.Progressing
  }

  /** `ensureCreated` of one manager; managers other than these two touch neither the
      phases nor the gathered conditions. */
  method EnsureCreated(obj: Manager, env: Surroundings, external: bool, r: Reconciler, sc: Instance)
    returns (outcome: Outcome)
    requires OneEach(r.conditions.items)
    requires r.phase == Empty || r.phase == Expanding
    modifies r`phase, r.conditions, sc`phase
    ensures outcome == OutcomeOf(obj, env, external)
    ensures Contributed(obj, env, external, old(sc.phase), old(r.phase), old(r.conditions.items),
                        sc.phase, r.phase, r.conditions.items)
  {
    if obj == CephCluster {
      outcome := EnsureCephCluster(env, external, r, sc);
    } else if obj == NoobaaSystem {
      outcome := EnsureNoobaaSystem(env, external, r, sc.phase);
    } else {
      outcome := if obj in env.outcomes then env.outcomes[obj] else FINE;
    }
  }

  /** The error that counts after one manager: during an expansion the operator's
      condition is published, which may fail and drops a not-found. */
  function Effective(failure: Failure, expanding: bool, unpublished: bool): Failure
  {
    if expanding then Joined(failure, unpublished) else failure
  }

  function PhaseRecorded(failure: Failure, expanding: bool, phase: Phase): Phase
  {
    var next := if expanding then Expanding else PhaseKept(phase);
    if failure == NoFailure || next == Onboarding then next
    else if failure == ClassesSkipped then Phase.Progressing
    else Phase.Error
  }

  /** How the loop goes on. Skipped storage classes only ask for another run, unless the
      cluster is onboarding. */
  function StopAfter(failure: Failure, requeue: bool, onboarding: bool): Option<Result>
  {
    if failure == ClassesSkipped && !onboarding then Some(Requeued)
    else if failure != NoFailure then Some(Failed)
    else if requeue then Some(Requeued)
    else None
  }

  /** The bookkeeping after each manager. An instance that entered the run as Expanding is
      set back here after the first manager. */
  method Record(outcome: Outcome, r: Reconciler, sc: Instance) returns (stop: Option<Result>)
    requires OneEach(sc.conditions.items) && r.conditions != sc.conditions
    requires r.published != Some(true) && !r.unpublished
    modifies r`published, r`unpublished, sc`phase, sc.conditions
    ensures OneEach(sc.conditions.items)
    ensures r.published != Some(true) && (r.unpublished ==> r.phase == Expanding)
    ensures var failure := Effective(outcome.failure, r.phase == Expanding, r.unpublished);
            && sc.phase == PhaseRecorded(failure, r.phase == Expanding, old(sc.phase))
            && stop == StopAfter(failure, outcome.requeue, sc.phase == Onboarding)
            && forall kind ::
                 StatusOf(sc.conditions.items, kind) ==
                 if kind == ReconcileComplete && failure != NoFailure then Some(False)
                 else if kind == C.Upgradeable && r.phase == Expanding then Some(False)
                 else StatusOf(old(sc.conditions.items), kind)
  {
    var failure := outcome.failure;
    if r.phase == Expanding {
      failure := r.SetOperatorConditions(false, failure);
      sc.phase := Expanding;
      sc.conditions.SetStatusCondition(Condition(C.Upgradeable, False));
    } else if sc.phase != Ready && sc.phase != Onboarding && sc.phase != Phase.Connecting {
      sc.phase := Phase.Progressing;
    }
    if failure != NoFailure {
      sc.conditions.SetErrorCondition();
      if sc.phase != Onboarding {
        if failure == ClassesSkipped {
          sc.phase := Phase.Progressing;
          return Some(Requeued);
        }
        sc.phase := Phase.Error;
      }
      return Some(Failed);
    } else if outcome.requeue {
      return Some(Requeued);
    }
    return None;
  }

  /** The phase of an external cluster that entered the loop with phase `entered`, once its
      CephCluster manager had its turn. */
  function ExternalEnd(view: CephView, entered: Phase): Phase
  {
    if view.CephFound? then ExternalPhase(view.state) else PhaseKept(entered)
  }

  ghost predicate GatheredExternal(seen: seq<Manager>, env: Surroundings, entered: Phase, sc: Phase, r: Phase)
  {
    && r == Empty
    && (seen != [] ==> sc == if CephCluster in seen then ExternalEnd(env.ceph, entered) else PhaseKept(entered))
  }

  ghost predicate GatheredInternal(seen: seq<Manager>, env: Surroundings, entered: Phase, sc: Phase, r: Phase,
                                   conditions: seq<Condition>)
  {
    && (r == Expanding <==> SawExpansion(seen, env))
    && (r == Empty && seen != [] ==> sc == PhaseKept(entered))
    && (SawProgress(seen, env) ==> StatusOf(conditions, C.Progressing) == Some(True))
  }

  /** What the managers `seen` have left: the phase `sc` of the instance that entered the
      loop with phase `entered`, the phase `r` of the reconciler, and the gathered
      conditions. */
  ghost predicate Gathered(seen: seq<Manager>, env: Surroundings, external: bool, entered: Phase,
                           sc: Phase, r: Phase, conditions: seq<Condition>)
  {
    && OneEach(conditions)
    && (r == Empty || r == Expanding)
    && (conditions == [] <==> !SawNegative(seen, env, external))
    && (if seen == [] then r == Empty && sc == entered else Between(sc, r))
    && (if external then GatheredExternal(seen, env, entered, sc, r)
        else GatheredInternal(seen, env, entered, sc, r, conditions))
  }

  lemma ExternalNext(objs: seq<Manager>, i: nat, env: Surroundings, entered: Phase,
                     sc0: Phase, r0: Phase, conditions0: seq<Condition>,
                     sc1: Phase, r1: Phase, conditions1: seq<Condition>)
    requires i < |objs| && objs[0] != CephCluster
    requires Gathered(objs[..i], env, true, entered, sc0, r0, conditions0)
    requires Contributed(objs[i], env, true, sc0, r0, conditions0, sc1, r1, conditions1)
    ensures GatheredExternal(objs[..i + 1], env, entered, PhaseKept(sc1), r1)
  {
    assert objs[..i + 1] == objs[..i] + [objs[i]];
  }

  lemma InternalNext(objs: seq<Manager>, i: nat, env: Surroundings, entered: Phase,
                     sc0: Phase, r0: Phase, conditions0: seq<Condition>,
                     sc1: Phase, r1: Phase, conditions1: seq<Condition>)
    requires i < |objs| && objs[0] != CephCluster
    requires Gathered(objs[..i], env, false, entered, sc0, r0, conditions0)
    requires Contributed(objs[i], env, false, sc0, r0, conditions0, sc1, r1, conditions1)
    ensures GatheredInternal(objs[..i + 1], env, entered,
                             if r1 == Expanding then Expanding else PhaseKept(sc1), r1, conditions1)
  {
    SawNext(objs, env, false, i);
  }

  lemma GatheredNext(objs: seq<Manager>, i: nat, env: Surroundings, external: bool, entered: Phase,
                     sc0: Phase, r0: Phase, conditions0: seq<Condition>,
                     sc1: Phase, r1: Phase, conditions1: seq<Condition>)
    requires i < |objs| && objs[0] != CephCluster
    requires Gathered(objs[..i], env, external, entered, sc0, r0, conditions0)
    requires Contributed(objs[i], env, external, sc0, r0, conditions0, sc1, r1, conditions1)
    ensures Gathered(objs[..i + 1], env, external, entered,
                     if r1 == Expanding then Expanding else PhaseKept(sc1), r1, conditions1)
    ensures !external ==> (r1 == Expanding <==> SawExpansion(objs[..i + 1], env))
  {
    SawNext(objs, env, external, i);
    if external {
      ExternalNext(objs, i, env, entered, sc0, r0, conditions0, sc1, r1, conditions1);
    } else {
      InternalNext(objs, i, env, entered, sc0, r0, conditions0, sc1, r1, conditions1);
    }
  }

  /** In the loop that way of expanding is never taken by surprise: an instance that is
      Expanding when the CephCluster manager gets its turn has become so in this run, since
      the first manager sets back one that entered as Expanding. */
  lemma StaysExpandingIsIdle(objs: seq<Manager>, i: nat, env: Surroundings, external: bool, entered: Phase,
                             sc: Phase, r: Phase, conditions: seq<Condition>)
    requires i < |objs| && objs[0] != CephCluster
    requires Gathered(objs[..i], env, external, entered, sc, r, conditions) && StaysExpanding(objs[i], env, sc)
    ensures r == Expanding && !external && SawExpansion(objs[..i], env)
  {
    assert objs[..i] != [];
  }

  /** How a manager with this outcome stops the loop. Skipped storage classes ask for another
      run; any other failure, or a failed publication during an expansion, ends the run in an
      error; a bare request for another run leaves the phase alone. A cluster that is
      onboarding keeps its phase in any case. `kept` is the phase the bookkeeping has. */
  ghost predicate StopTells(outcome: Outcome, expanding: bool, unpublished: bool, kept: Phase,
                            result: Result, phase: Phase, conditions: seq<Condition>)
  {
    var fails := outcome.failure == OtherFailure || (if expanding then unpublished else outcome.failure == NotFound);
    if outcome.failure == ClassesSkipped && kept != Onboarding then
      result == Requeued && phase == Phase.Progressing && StatusOf(conditions, ReconcileComplete) == Some(False)
    else if outcome.failure == ClassesSkipped || fails then
      && result == Failed && phase == (if kept == Onboarding then Onboarding else Phase.Error)
      && StatusOf(conditions, ReconcileComplete) == Some(False)
    else
      result == Requeued && outcome.requeue && phase == kept
  }

  lemma RecordTells(outcome: Outcome, expanding: bool, unpublished: bool, before: Phase,
                    stop: Option<Result>, phase: Phase, conditions: seq<Condition>)
    requires var failure := Effective(outcome.failure, expanding, unpublished);
             && phase == PhaseRecorded(failure, expanding, before)
             && stop == StopAfter(failure, outcome.requeue, phase == Onboarding)
             && (failure != NoFailure ==> StatusOf(conditions, ReconcileComplete) == Some(False))
    ensures stop.None? <==>
              !(expanding && unpublished) &&
              (outcome == FINE || (expanding && outcome == Outcome(NotFound, false)))
    ensures stop.Some? ==>
              StopTells(outcome, expanding, unpublished, if expanding then Expanding else PhaseKept(before),
                        stop.value, phase, conditions)
  {
  }

  /** Manager `j` does not stop the loop: it is fine, or its not-found is dropped because the
      operator's condition is published during an expansion. */
  ghost predicate Passed(objs: seq<Manager>, env: Surroundings, external: bool, j: nat)
    requires j < |objs|
  {
    || OutcomeOf(objs[j], env, external) == FINE
    || (!external && SawExpansion(objs[..j + 1], env) && OutcomeOf(objs[j], env, external) == Outcome(NotFound, false))
  }

  ghost predicate AllPassed(objs: seq<Manager>, env: Surroundings, external: bool, n: nat)
    requires n <= |objs|
  {
    forall j :: 0 <= j < n ==> Passed(objs, env, external, j)
  }

  /** The phase of an instance after the bookkeeping for the managers `seen`, none of which
      failed. */
  ghost function KeptAt(seen: seq<Manager>, env: Surroundings, external: bool, entered: Phase): Phase
  {
    if !external && SawExpansion(seen, env) then Expanding
    else if external && CephCluster in seen then ExternalEnd(env.ceph, entered)
    else PhaseKept(entered)
  }

  /** The loop was stopped by manager `i`. */
  ghost predicate StoppedAt(objs: seq<Manager>, i: nat, env: Surroundings, external: bool, entered: Phase,
                            unpublished: bool, result: Result, phase: Phase, conditions: seq<Condition>)
  {
    && i < |objs| && AllPassed(objs, env, external, i)
    && StopTells(OutcomeOf(objs[i], env, external), !external && SawExpansion(objs[..i + 1], env), unpublished,
                 KeptAt(objs[..i + 1], env, external, entered), result, phase, conditions)
  }

  lemma TurnTells(objs: seq<Manager>, i: nat, env: Surroundings, external: bool, entered: Phase,
                  sc1: Phase, r1: Phase, gathered: seq<Condition>, unpublished: bool,
                  stop: Option<Result>, phase: Phase, conditions: seq<Condition>)
    requires i < |objs|
    requires Gathered(objs[..i + 1], env, external, entered, if r1 == Expanding then Expanding else PhaseKept(sc1), r1,
                      gathered)
    requires !external ==> (r1 == Expanding <==> SawExpansion(objs[..i + 1], env))
    requires var outcome := OutcomeOf(objs[i], env, external);
             var failure := Effective(outcome.failure, r1 == Expanding, unpublished);
             && phase == PhaseRecorded(failure, r1 == Expanding, sc1)
             && stop == StopAfter(failure, outcome.requeue, phase == Onboarding)
             && (failure != NoFailure ==> StatusOf(conditions, ReconcileComplete) == Some(False))
    ensures stop.None? ==> Passed(objs, env, external, i)
    ensures stop.Some? ==>
              StopTells(OutcomeOf(objs[i], env, external), !external && SawExpansion(objs[..i + 1], env), unpublished,
                        KeptAt(objs[..i + 1], env, external, entered), stop.value, phase, conditions)
  {
    RecordTells(OutcomeOf(objs[i], env, external), r1 == Expanding, unpublished, sc1, stop, phase, conditions);
  }

  lemma StoppedAllFine(objs: seq<Manager>, i: nat, env: Surroundings, external: bool, entered: Phase,
                       unpublished: bool, result: Result, phase: Phase, conditions: seq<Condition>)
    requires StoppedAt(objs, i, env, external, entered, unpublished, result, phase, conditions)
    requires AllFine(objs, env, external)
    ensures unpublished && !external && SawExpansion(objs, env)
  {
    if SawExpansion(objs[..i + 1], env) { SawEarlier(objs, env, i + 1); }
  }

  /** The turn of one manager in the loop. */
  method Turn(objs: seq<Manager>, i: nat, env: Surroundings, external: bool, ghost entered: Phase, r: Reconciler,
              sc: Instance)
    returns (stop: Option<Result>)
    requires i < |objs| && objs[0] != CephCluster
    requires OneEach(sc.conditions.items) && r.conditions != sc.conditions
    requires r.published != Some(true) && !r.unpublished
    requires Gathered(objs[..i], env, external, entered, sc.phase, r.phase, r.conditions.items)
    modifies r`phase, r`published, r`unpublished, r.conditions, sc`phase, sc.conditions
    ensures OneEach(sc.conditions.items) && OneEach(r.conditions.items) && r.published != Some(true)
    ensures stop.None? ==>
              !r.unpublished && Gathered(objs[..i + 1], env, external, entered, sc.phase, r.phase, r.conditions.items)
    ensures stop.Some? ==> stop.value == Failed || stop.value == Requeued
    ensures stop.None? ==> Passed(objs, env, external, i)
    ensures stop.Some? ==>
              StopTells(OutcomeOf(objs[i], env, external), !external && SawExpansion(objs[..i + 1], env), r.unpublished,
                        KeptAt(objs[..i + 1], env, external, entered), stop.value, sc.phase, sc.conditions.items)
    ensures sc.phase != Empty && sc.phase != Ignored
  {
    ghost var sc0, r0, conditions0 := sc.phase, r.phase, r.conditions.items;
    var outcome := EnsureCreated(objs[i], env, external, r, sc);
    GatheredNext(objs, i, env, external, entered, sc0, r0, conditions0, sc.phase, r.phase, r.conditions.items);
    ghost var sc1 := sc.phase;
    stop := Record(outcome, r, sc);
    TurnTells(objs, i, env, external, entered, sc1, r.phase, r.conditions.items, r.unpublished, stop, sc.phase,
              sc.conditions.items);
  }

  /** The loop over the managers, up to the first that fails or asks to be called again. */
  method RunManagers(objs: seq<Manager>, env: Surroundings, external: bool, r: Reconciler, sc: Instance)
    returns (stop: Option<Result>)
    requires objs != [] && objs[0] != CephCluster
    requires OneEach(sc.conditions.items) && r.conditions != sc.conditions
    requires r.phase == Empty && r.conditions.items == [] && r.published != Some(true) && !r.unpublished
    modifies r`phase, r`published, r`unpublished, r.conditions, sc`phase, sc.conditions
    ensures OneEach(sc.conditions.items) && OneEach(r.conditions.items) && r.published != Some(true)
    ensures stop.None? ==>
              !r.unpublished && Gathered(objs, env, external, old(sc.phase), sc.phase, r.phase, r.conditions.items)
    ensures stop.Some? ==> stop.value == Failed || stop.value == Requeued
    ensures stop.Some? && AllFine(objs, env, external) ==> r.unpublished && !external && SawExpansion(objs, env)
    ensures stop.None? ==> AllPassed(objs, env, external, |objs|)
    ensures stop.Some? ==>
              exists i :: StoppedAt(objs, i, env, external, old(sc.phase), r.unpublished, stop.value, sc.phase,
                                    sc.conditions.items)
    ensures sc.phase != Empty && sc.phase != Ignored
  {
    ghost var entered := sc.phase;
    for i := 0 to |objs|
      invariant AllPassed(objs, env, external, i)
      invariant OneEach(sc.conditions.items)
      invariant r.published != Some(true) && !r.unpublished
      invariant Gathered(objs[..i], env, external, entered, sc.phase, r.phase, r.conditions.items)
    {
      stop := Turn(objs, i, env, external, entered, r, sc);
      if stop.Some? {
        assert StoppedAt(objs, i, env, external, entered, r.unpublished, stop.value, sc.phase, sc.conditions.items);
        if AllFine(objs, env, external) {
          StoppedAllFine(objs, i, env, external, entered, r.unpublished, stop.value, sc.phase, sc.conditions.items);
        }
        return;
      }
    }
    assert objs[..|objs|] == objs;
    stop := None;
  }

  lemma SawNext(objs: seq<Manager>, env: Surroundings, external: bool, i: nat)
    requires i < |objs|
    ensures SawNegative(objs[..i + 1], env, external) <==>
              SawNegative(objs[..i], env, external) || NegativeFrom(objs[i], env, external)
    ensures SawProgress(objs[..i + 1], env) <==> SawProgress(objs[..i], env) || ProgressFrom(objs[i], env)
    ensures SawExpansion(objs[..i + 1], env) <==> SawExpansion(objs[..i], env) || ExpansionFrom(objs[i], env)
  {
    var before, after := objs[..i], objs[..i + 1];
    assert forall k :: 0 <= k < i ==> before[k] == after[k];
    assert after[i] == objs[i];
    assert forall k :: 0 <= k < |after| ==> k == i || (k < i && after[k] == before[k]);
  }

  lemma SawEarlier(objs: seq<Manager>, env: Surroundings, n: nat)
    requires n <= |objs| && SawExpansion(objs[..n], env)
    ensures SawExpansion(objs, env)
  {
    var k :| 0 <= k < n && ExpansionFrom(objs[..n][k], env);
    assert ExpansionFrom(objs[k], env);
  }

  /** What a Ready cluster needs to declare the operator upgradeable. */
  ghost predicate MayUpgrade(env: Surroundings, instance: StorageCluster, stored: Stored)
  {
    OthersReady(stored, instance) && (env.remoteConsumers ==> env.unsupportedClients == Some(0))
  }

  predicate SaysComplete(items: seq<Condition>)
  {
    && StatusOf(items, ReconcileComplete) == Some(True) && StatusOf(items, Available) == Some(True)
    && StatusOf(items, C.Progressing) == Some(False) && StatusOf(items, Degraded) == Some(False)
    && StatusOf(items, C.Upgradeable) == Some(True)
  }

  method MarkComplete(external: bool, sc: Instance)
    requires OneEach(sc.conditions.items)
    modifies sc.conditions
    ensures OneEach(sc.conditions.items) && SaysComplete(sc.conditions.items)
  {
    sc.conditions.SetCompleteCondition();
    if external {
      sc.conditions.RemoveStatusCondition(ExternalConnecting);
      sc.conditions.RemoveStatusCondition(ExternalConnected);
    }
  }

  /** The end of a run in which nothing negative was gathered. */
  method FinishReady(env: Surroundings, external: bool, instance: StorageCluster, clusters: Snapshot,
                     ghost stored: Stored,
                     r: Reconciler, sc: Instance) returns (result: Result)
    requires clusters.Shows(stored) && OneEach(sc.conditions.items) && r.published != Some(true) && !r.unpublished
    modifies r`published, r`unpublished, sc`phase, sc.conditions
    ensures result == if r.unpublished then Unpublished else Completed
    ensures sc.phase == if old(sc.phase) == Expanding then Expanding else Ready
    ensures r.published == if r.unpublished || sc.phase == Expanding then old(r.published)
            else Some(MayUpgrade(env, instance, stored))
    ensures OneEach(sc.conditions.items) && SaysComplete(sc.conditions.items)
  {
    MarkComplete(external, sc);
    if sc.phase != Expanding {
      sc.phase := Ready;
      var others := clusters.AreOtherStorageClustersReady(instance, stored);
      var upgradeable := others;
      if env.remoteConsumers && env.unsupportedClients != Some(0) {
        upgradeable := false;
      }
      var failure := r.SetOperatorConditions(upgradeable, NoFailure);
      if failure != NoFailure { return Unpublished; }
    }
    return Completed;
  }

  /** The phase that negative conditions stand for. */
  function NegativePhase(items: seq<Condition>): Phase
  {
    if StatusOf(items, C.Progressing) == Some(True) then Phase.Progressing
    else if StatusOf(items, C.Upgradeable) == Some(False) then NotReady
    else Phase.Error
  }

  /** The end of a run in which something negative was gathered. When the operator's
      condition cannot be published the run ends before it computes the phase. */
  method FinishNegative(external: bool, r: Reconciler, sc: Instance) returns (result: Result)
    requires OneEach(r.conditions.items) && OneEach(sc.conditions.items) && r.conditions != sc.conditions
    requires r.published != Some(true) && !r.unpublished
    modifies r`published, r`unpublished, sc`phase, sc.conditions
    ensures result == if r.unpublished then Unpublished else Completed
    ensures r.published != Some(true)
    ensures StatusOf(sc.conditions.items, C.Upgradeable) == Some(False) && !r.unpublished ==>
              r.published == Some(false)
    ensures sc.phase ==
            if old(sc.phase) == Expanding || external || r.unpublished then old(sc.phase)
            else NegativePhase(sc.conditions.items)
    ensures OneEach(sc.conditions.items)
    ensures forall kind ::
              StatusOf(sc.conditions.items, kind) ==
              if kind == ReconcileComplete then Some(True)
              else Else(StatusOf(r.conditions.items, kind), StatusOf(old(sc.conditions.items), kind))
  {
    sc.conditions.Merge(r.conditions);
    sc.conditions.SetStatusCondition(Condition(ReconcileComplete, True));
    if StatusOf(sc.conditions.items, C.Upgradeable) == Some(False) {
      var failure := r.SetOperatorConditions(false, NoFailure);
      if failure != NoFailure { return Unpublished; }
    }
    if sc.phase != Expanding && !external {
      if StatusOf(sc.conditions.items, C.Progressing) == Some(True) {
        sc.phase := Phase.Progressing;
      } else if StatusOf(sc.conditions.items, C.Upgradeable) == Some(False) {
        sc.phase := NotReady;
      } else {
        sc.phase := Phase.Error;
      }
    }
    return Completed;
  }

  /** The end of a run in terms of what was gathered: an expansion, or the conditions
      `gathered`. The instance had the phase `before`. */
  ghost predicate Finished(external: bool, expanding: bool, gathered: seq<Condition>, before: Phase, may: bool,
                           result: Result, phase: Phase, conditions: seq<Condition>, published: Option<bool>)
  {
    && (gathered == [] ==> SaysComplete(conditions))
    && (expanding <==> phase == Expanding)
    && (gathered == [] && !expanding ==> phase == Ready && (result == Completed ==> published == Some(may)))
    && (gathered != [] && !expanding ==>
          && (external || result == Unpublished ==> phase == before)
          && (!external && result == Completed ==>
                && phase != Ready
                && (StatusOf(gathered, C.Progressing) == Some(True) ==> phase == Phase.Progressing)))
  }

  /** A completed run that gathered something negative: the conditions of an internal cluster
      that is not expanding give its phase, and whenever they forbid an upgrade the operator
      was declared not upgradeable. */
  ghost predicate NegativeTells(external: bool, expanding: bool, phase: Phase, conditions: seq<Condition>,
                                published: Option<bool>)
  {
    && (!external && !expanding ==>
          phase == if StatusOf(conditions, C.Progressing) == Some(True) then Phase.Progressing
                   else if StatusOf(conditions, C.Upgradeable) == Some(False) then NotReady
                   else Phase.Error)
    && (StatusOf(conditions, C.Upgradeable) == Some(False) ==> published == Some(false))
    && StatusOf(conditions, ReconcileComplete) == Some(True)
  }

  /** The end of a run whose managers all went through. */
  method Finish(env: Surroundings, external: bool, instance: StorageCluster, clusters: Snapshot, ghost stored: Stored,
                r: Reconciler, sc: Instance) returns (result: Result)
    requires clusters.Shows(stored)
    requires OneEach(r.conditions.items) && OneEach(sc.conditions.items) && r.conditions != sc.conditions
    requires r.published != Some(true) && !r.unpublished && Between(sc.phase, r.phase)
    modifies r`published, r`unpublished, sc`phase, sc.conditions
    ensures result == if r.unpublished then Unpublished else Completed
    ensures sc.phase != Empty && sc.phase != Ignored
    ensures r.published == Some(true) ==> sc.phase == Ready && MayUpgrade(env, instance, stored)
    ensures Finished(external, r.phase == Expanding, r.conditions.items, old(sc.phase),
                     MayUpgrade(env, instance, stored), result, sc.phase, sc.conditions.items, r.published)
    ensures r.conditions.items != [] && result == Completed ==>
              NegativeTells(external, r.phase == Expanding, sc.phase, sc.conditions.items, r.published)
  {
    if |r.conditions.items| == 0 {
      result := FinishReady(env, external, instance, clusters, stored, r, sc);
    } else {
      result := FinishNegative(external, r, sc);
    }
  }

  /** The resource profile does not hold up the run. */
  predicate ProfileSettled(env: Surroundings, external: bool)
  {
    external || env.remoteConsumers || env.standalone || env.profile == Unchanged || env.profile == Applied
  }

  /** A profile that is still being applied asks for another run, one that failed is an
      error; any other error leaves the phase alone. */
  ghost predicate ProfileTells(env: Surroundings, before: Phase, result: Result, phase: Phase)
  {
    match env.profile
    case Applying => result == Requeued && phase == Phase.Progressing
    case ProfileFailed => result == Failed && phase == Phase.Error
    case _ => result == Failed && phase == before
  }

  /** A pending change of the resource profile. */
  method ApplyProfile(env: Surroundings, external: bool, sc: Instance) returns (stop: Option<Result>)
    requires OneEach(sc.conditions.items)
    modifies sc`phase, sc.conditions
    ensures OneEach(sc.conditions.items)
    ensures stop.None? ==> sc.phase == old(sc.phase)
    ensures stop.Some? ==> stop.value == Failed || stop.value == Requeued
    ensures sc.phase == old(sc.phase) || sc.phase == Phase.Progressing || sc.phase == Phase.Error
    ensures stop.None? <==> ProfileSettled(env, external)
    ensures stop.Some? ==> ProfileTells(env, old(sc.phase), stop.value, sc.phase)
  {
    if !(external || env.remoteConsumers || env.standalone) {
      match env.profile {
        case Unchanged =>
        case Applied =>
        case Applying =>
          sc.conditions.SetProgressingCondition();
          sc.phase := Phase.Progressing;
          return Some(Requeued);
        case ProfileFailed =>
          sc.conditions.SetErrorCondition();
          sc.phase := Phase.Error;
          return Some(Failed);
        case ProfileError =>
          return Some(Failed);
      }
    }
    return None;
  }

  /** The part of the run for an instance that is marked for deletion. */
  method Terminate(env: Surroundings, instance: StorageCluster, clusters: Snapshot, ghost stored: Stored,
                   r: Reconciler, sc: Instance)
    returns (result: Result)
    requires clusters.Shows(stored) && instance.Live() && r.published == None && !r.unpublished
    modifies r`published, r`unpublished, sc`phase
    ensures sc.phase == Deleting || sc.phase == instance.phase
    ensures result == Requeued || result == Failed || result == Terminated
    ensures r.published == Some(true) ==> OthersReady(stored, instance)
    ensures result == Terminated ==> r.published == if OthersReady(stored, instance) then Some(true) else None
    ensures result == Terminated && env.hasFinalizer ==> env.deletion == Cleaned && env.finalizerUpdated
    ensures result == Requeued <==> env.hasFinalizer && env.deletion == CleanupPending
    ensures result == Requeued || !env.hasFinalizer ==> sc.phase == Deleting
  {
    sc.phase := Deleting;
    if env.hasFinalizer {
      if env.deletion == CleanupPending { return Requeued; }
      // A successful update overwrites the instance with the stored status.
      if !env.finalizerUpdated { return Failed; }
      sc.phase := instance.phase;
    }
    var others := clusters.AreOtherStorageClustersReady(instance, stored);
    if others {
      var failure := r.SetOperatorConditions(true, NoFailure);
      if failure != NoFailure { return Failed; }
    }
    return Terminated;
  }

  /** The phase a live or active cluster goes on with. */
  function PhaseEntered(phase: Phase): Phase
  {
    if phase == Ready || phase == Expanding || phase == Deleting || phase == Onboarding ||
        phase == Phase.Connecting then phase
    else Phase.Progressing
  }

  /** Only the version check has left a condition so far. */
  predicate JustCreated(items: seq<Condition>)
  {
    |items| == 1 && items[0].kind == VersionMismatch
  }

  /** The gate: who may go on, and the phase and conditions to go on with. */
  method Enter(env: Surroundings, instance: StorageCluster, clusters: Snapshot, ghost stored: Stored, sc: Instance)
    returns (proceed: bool)
    requires clusters.Shows(stored)
    requires instance.Key() in stored && stored[instance.Key()] == instance
    requires sc.phase == instance.phase && OneEach(sc.conditions.items)
    modifies sc`phase, sc.conditions
    ensures OneEach(sc.conditions.items)
    ensures proceed <==>
              instance.Live() || (instance.phase == Empty && Election.Active(env.operatorNamespace, stored, instance))
    ensures !proceed ==> sc.phase == Ignored
    ensures proceed ==> sc.phase == PhaseEntered(instance.phase)
    ensures forall kind ::
              StatusOf(sc.conditions.items, kind) ==
              if proceed && JustCreated(old(sc.conditions.items))
                  then Else(StartSays(kind), StatusOf(old(sc.conditions.items), kind))
              else StatusOf(old(sc.conditions.items), kind)
  {
    if sc.phase == Empty {
      var active := Election.IsActiveStorageCluster(env.operatorNamespace, clusters, instance, stored);
      if !active {
        sc.phase := Ignored;
        return false;
      }
    } else if sc.phase == Ignored {
      return false;
    }
    if sc.phase != Ready && sc.phase != Expanding && sc.phase != Deleting && sc.phase != Onboarding &&
       sc.phase != Phase.Connecting {
      sc.phase := Phase.Progressing;
    }
    if |sc.conditions.items| == 1 && sc.conditions.items[0].kind == VersionMismatch {
      sc.conditions.SetProgressingCondition();
    }
    return true;
  }

  /** The object needs no further update before the managers start. */
  predicate Prepared(env: Surroundings)
  {
    (env.hasFinalizer || env.finalizerUpdated) && env.annotations == Kept
  }

  /** Finalizer and annotations. A successful update of the object overwrites the instance
      with the stored status. */
  method Prepare(env: Surroundings, instance: StorageCluster, persisted: seq<Condition>, sc: Instance)
    returns (proceed: bool)
    requires OneEach(persisted) && OneEach(sc.conditions.items)
    modifies sc`phase, sc.conditions
    ensures OneEach(sc.conditions.items)
    ensures sc.phase == old(sc.phase) || sc.phase == instance.phase
    ensures proceed <==> Prepared(env)
  {
    if !env.hasFinalizer {
      if !env.finalizerUpdated { return false; }
      sc.phase := instance.phase;
      sc.conditions.items := persisted;
    }
    if env.annotations == Updated {
      sc.phase := instance.phase;
      sc.conditions.items := persisted;
    }
    return env.annotations == Kept;
  }

  /** What the end of a run whose managers all went through tells about it. The conditions
      are positive when no manager saw anything negative, and a Ready cluster has then
      published whether the operator may go on. For the phase: */
  ghost predicate Tells(env: Surroundings, instance: StorageCluster, stored: Stored, result: Result, phase: Phase,
                        conditions: seq<Condition>, published: Option<bool>)
  {
    var objs := Managers(instance.external, env.standalone);
    && (!SawNegative(objs, env, instance.external) ==>
          && SaysComplete(conditions)
          && (phase == Ready && result == Completed ==> published == Some(MayUpgrade(env, instance, stored))))
    && (if instance.external then ExternalTells(env, instance, phase) else InternalTells(env, instance, result, phase))
  }

  /** An external cluster is Ready exactly when no manager saw anything negative, or its
      CephCluster was found connected, or it was Ready before and its CephCluster was not
      found with a state. A NooBaa that is not ready makes no difference to the phase. */
  ghost predicate ExternalTells(env: Surroundings, instance: StorageCluster, phase: Phase)
  {
    var negative := SawNegative(Managers(true, env.standalone), env, true);
    && phase == (if negative then ExternalEnd(env.ceph, instance.phase) else Ready)
    && (phase == Ready <==>
          !negative || if env.ceph.CephFound? then env.ceph.state == C.Connected else instance.phase == Ready)
  }

  /** An internal cluster is Ready exactly when no manager saw anything negative or an
      expansion, or when it was Ready before and the run broke off at the publication. It is
      Expanding when an expansion was seen, and Progressing when something was still in
      progress and the publication went through. */
  ghost predicate InternalTells(env: Surroundings, instance: StorageCluster, result: Result, phase: Phase)
  {
    var objs := Managers(false, env.standalone);
    var negative := SawNegative(objs, env, false);
    && (phase == Ready <==>
          !SawExpansion(objs, env) && (!negative || (result == Unpublished && instance.phase == Ready)))
    && (SawExpansion(objs, env) <==> phase == Expanding)
    && (negative && !SawExpansion(objs, env) && result == Unpublished ==> phase == PhaseKept(instance.phase))
    && (SawProgress(objs, env) && !SawExpansion(objs, env) && result == Completed ==> phase == Phase.Progressing)
  }

  lemma FinishedTells(env: Surroundings, instance: StorageCluster, stored: Stored, entered: Phase, expanding: Phase,
                      gathered: seq<Condition>, before: Phase, result: Result, phase: Phase,
                      conditions: seq<Condition>, published: Option<bool>)
    requires PhaseKept(entered) == PhaseKept(instance.phase) && (result == Completed || result == Unpublished)
    requires Gathered(Managers(instance.external, env.standalone), env, instance.external, entered,
                      before, expanding, gathered)
    requires Finished(instance.external, expanding == Expanding, gathered, before, MayUpgrade(env, instance, stored),
                      result, phase, conditions, published)
    ensures Tells(env, instance, stored, result, phase, conditions, published)
  {
    assert instance.external ==> Managers(true, env.standalone)[2] == CephCluster;
  }

  /** What an admitted run tells that is over before its end: some manager stopped it, or
      the resource profile did after all of them had passed. */
  ghost predicate StoppedRun(env: Surroundings, instance: StorageCluster, unpublished: bool, result: Result,
                             phase: Phase, conditions: seq<Condition>)
  {
    var objs, external := Managers(instance.external, env.standalone), instance.external;
    || (exists i :: StoppedAt(objs, i, env, external, instance.phase, unpublished, result, phase, conditions))
    || (AllPassed(objs, env, external, |objs|) && !ProfileSettled(env, external) &&
        ProfileTells(env, KeptAt(objs, env, external, instance.phase), result, phase))
  }

  lemma StoppedBoth(objs: seq<Manager>, i: nat, env: Surroundings, external: bool, a: Phase, b: Phase,
                    unpublished: bool, result: Result, phase: Phase, conditions: seq<Condition>)
    requires StoppedAt(objs, i, env, external, a, unpublished, result, phase, conditions)
    requires PhaseKept(a) == PhaseKept(b)
    ensures StoppedAt(objs, i, env, external, b, unpublished, result, phase, conditions)
  {
  }

  lemma GatheredPhase(objs: seq<Manager>, env: Surroundings, external: bool, entered: Phase, was: Phase,
                      sc: Phase, r: Phase, conditions: seq<Condition>)
    requires objs != [] && Gathered(objs, env, external, entered, sc, r, conditions)
    requires PhaseKept(entered) == PhaseKept(was)
    ensures sc == KeptAt(objs, env, external, was)
  {
  }

  /** Manager `k` is the first that is not fine, and no expansion was seen up to it. */
  ghost predicate FirstNotFine(objs: seq<Manager>, env: Surroundings, external: bool, k: nat)
  {
    && k < |objs| && OutcomeOf(objs[k], env, external) != FINE
    && (forall j :: 0 <= j < k ==> OutcomeOf(objs[j], env, external) == FINE)
    && (external || !SawExpansion(objs[..k + 1], env))
  }

  ghost predicate Decides(env: Surroundings, instance: StorageCluster, k: nat)
  {
    FirstNotFine(Managers(instance.external, env.standalone), env, instance.external, k)
  }

  /** The first manager that is not fine decides. Skipped storage classes give Progressing
      and another run, any other failure gives Error; both leave the reconcile incomplete. A
      cluster that is onboarding goes on onboarding, and any failure ends its run. A bare
      request for another run leaves a cluster Ready, Onboarding or Connecting, and makes it
      Progressing otherwise; from the CephCluster manager on, the third, an external cluster
      has the phase of its CephCluster if that was found. */
  ghost predicate FailureTells(env: Surroundings, instance: StorageCluster, k: nat, result: Result, phase: Phase,
                               conditions: seq<Condition>)
    requires k < |Managers(instance.external, env.standalone)|
  {
    var outcome := OutcomeOf(Managers(instance.external, env.standalone)[k], env, instance.external);
    var kept :=
      if instance.external && k >= 2 && env.ceph.CephFound? then
        if env.ceph.state == C.Connecting then Phase.Connecting
        else if env.ceph.state == C.Connected then Ready else Phase.Progressing
      else if instance.phase == Ready || instance.phase == Onboarding || instance.phase == Phase.Connecting
      then instance.phase else Phase.Progressing;
    && (outcome.failure != NoFailure ==> StatusOf(conditions, ReconcileComplete) == Some(False))
    && (kept == Onboarding ==>
          phase == Onboarding && result == if outcome.failure == NoFailure then Requeued else Failed)
    && (kept != Onboarding && outcome.failure == ClassesSkipped ==> phase == Phase.Progressing && result == Requeued)
    && (kept != Onboarding && (outcome.failure == NotFound || outcome.failure == OtherFailure) ==>
          phase == Phase.Error && result == Failed)
    && (outcome.failure == NoFailure ==> phase == kept && result == Requeued)
  }

  /** Where the external list has its CephCluster manager. */
  lemma CephClusterSeen(k: nat, standalone: bool)
    requires k < |Managers(true, standalone)|
    ensures CephCluster in Managers(true, standalone)[..k + 1] <==> k >= 2
  {
    var objs := Managers(true, standalone);
    assert objs[2] == CephCluster;
    if k >= 2 { assert objs[..k + 1][2] == CephCluster; }
  }

  lemma NotFineIsNotPassed(objs: seq<Manager>, env: Surroundings, external: bool, k: nat)
    requires FirstNotFine(objs, env, external, k)
    ensures forall n :: k < n <= |objs| ==> !AllPassed(objs, env, external, n)
  {
    assert !Passed(objs, env, external, k);
  }

  lemma SawExpansionIn(objs: seq<Manager>, env: Surroundings, m: nat, n: nat)
    requires m <= n <= |objs|
    ensures SawExpansion(objs[..m], env) ==> SawExpansion(objs[..n], env)
  {
    if j :| 0 <= j < m && ExpansionFrom(objs[..m][j], env) {
      assert objs[..n][j] == objs[..m][j];
    }
  }

  lemma StoppedAtFirst(objs: seq<Manager>, env: Surroundings, external: bool, entered: Phase, unpublished: bool,
                       result: Result, phase: Phase, conditions: seq<Condition>, i: nat, k: nat)
    requires FirstNotFine(objs, env, external, k)
    requires StoppedAt(objs, i, env, external, entered, unpublished, result, phase, conditions)
    ensures i == k
  {
    NotFineIsNotPassed(objs, env, external, k);
    SawExpansionIn(objs, env, if i < k then i + 1 else k + 1, k + 1);
  }

  lemma StoppedThere(env: Surroundings, instance: StorageCluster, unpublished: bool, result: Result, phase: Phase,
                     conditions: seq<Condition>, k: nat)
    requires Decides(env, instance, k)
    requires instance.external ==>
               (CephCluster in Managers(true, env.standalone)[..k + 1] <==> k >= 2)
    requires StoppedAt(Managers(instance.external, env.standalone), k, env, instance.external, instance.phase,
                       unpublished, result, phase, conditions)
    ensures FailureTells(env, instance, k, result, phase, conditions)
  {
  }

  lemma FirstFailureDecides(env: Surroundings, instance: StorageCluster, unpublished: bool, result: Result,
                            phase: Phase, conditions: seq<Condition>, k: nat)
    requires Decides(env, instance, k)
    requires StoppedRun(env, instance, unpublished, result, phase, conditions)
    ensures FailureTells(env, instance, k, result, phase, conditions)
  {
    var objs, external := Managers(instance.external, env.standalone), instance.external;
    NotFineIsNotPassed(objs, env, external, k);
    var i :| StoppedAt(objs, i, env, external, instance.phase, unpublished, result, phase, conditions);
    StoppedAtFirst(objs, env, external, instance.phase, unpublished, result, phase, conditions, i, k);
    if external { CephClusterSeen(k, env.standalone); }
    StoppedThere(env, instance, unpublished, result, phase, conditions, k);
  }

  /** Every manager is fine but the resource profile is not settled, and no expansion was
      seen: a profile that is still being applied leaves Progressing and asks for another
      run, a failed one leaves Error, and any other error leaves the phase as it was. */
  ghost predicate UnsettledTells(env: Surroundings, instance: StorageCluster, result: Result, phase: Phase)
  {
    var kept := if instance.phase == Ready || instance.phase == Onboarding || instance.phase == Phase.Connecting
      then instance.phase else Phase.Progressing;
    && (env.profile == Applying ==> phase == Phase.Progressing && result == Requeued)
    && (env.profile == ProfileFailed ==> phase == Phase.Error && result == Failed)
    && (env.profile == ProfileError ==> phase == kept && result == Failed)
  }

  ghost predicate Unsettled(env: Surroundings, instance: StorageCluster)
  {
    && AllFine(Managers(instance.external, env.standalone), env, instance.external)
    && !instance.external && !env.remoteConsumers && !env.standalone
    && env.profile != Unchanged && env.profile != Applied
    && !SawExpansion(Managers(instance.external, env.standalone), env)
  }

  lemma UnsettledStops(env: Surroundings, instance: StorageCluster, unpublished: bool, result: Result, phase: Phase,
                       conditions: seq<Condition>)
    requires Unsettled(env, instance) && StoppedRun(env, instance, unpublished, result, phase, conditions)
    ensures UnsettledTells(env, instance, result, phase)
  {
    var objs := Managers(instance.external, env.standalone);
    if i :| StoppedAt(objs, i, env, instance.external, instance.phase, unpublished, result, phase, conditions) {
      StoppedAllFine(objs, i, env, instance.external, instance.phase, unpublished, result, phase, conditions);
    }
  }

  /** How an admitted run ends that does not get to its end, in terms of the outcomes of the
      managers. */
  ghost predicate EarlyEndTells(env: Surroundings, instance: StorageCluster, result: Result, phase: Phase,
                                conditions: seq<Condition>)
  {
    && (forall k :: Decides(env, instance, k) ==> FailureTells(env, instance, k, result, phase, conditions))
    && (Unsettled(env, instance) ==> UnsettledTells(env, instance, result, phase))
  }

  lemma EarlyEnd(env: Surroundings, instance: StorageCluster, unpublished: bool, result: Result, phase: Phase,
                 conditions: seq<Condition>)
    requires StoppedRun(env, instance, unpublished, result, phase, conditions) || WentThrough(env, instance)
    ensures EarlyEndTells(env, instance, result, phase, conditions)
  {
    forall k | Decides(env, instance, k) ensures FailureTells(env, instance, k, result, phase, conditions) {
      NotFineIsNotPassed(Managers(instance.external, env.standalone), env, instance.external, k);
      FirstFailureDecides(env, instance, unpublished, result, phase, conditions, k);
    }
    if Unsettled(env, instance) { UnsettledStops(env, instance, unpublished, result, phase, conditions); }
  }

  /** The run from the loop over the managers on. */
  method RunToEnd(env: Surroundings, instance: StorageCluster, clusters: Snapshot, ghost stored: Stored,
                  r: Reconciler, sc: Instance) returns (result: Result)
    requires clusters.Shows(stored) && OneEach(sc.conditions.items)
    requires PhaseKept(sc.phase) == PhaseKept(instance.phase)
    requires r.phase == Empty && r.conditions.items == [] && r.conditions != sc.conditions
    requires r.published == None && !r.unpublished
    modifies r`phase, r`published, r`unpublished, r.conditions, sc`phase, sc.conditions
    ensures sc.phase != Empty && sc.phase != Ignored
    ensures result == Failed || result == Requeued || result == Unpublished || result == Completed
    ensures r.published == Some(true) ==> sc.phase == Ready && MayUpgrade(env, instance, stored)
    ensures result == Completed || result == Unpublished ==>
              Tells(env, instance, stored, result, sc.phase, sc.conditions.items, r.published)
    ensures result == Completed && SawNegative(Managers(instance.external, env.standalone), env, instance.external) ==>
              NegativeTells(instance.external, sc.phase == Expanding, sc.phase, sc.conditions.items, r.published)
    ensures result == Failed || result == Requeued ==>
              StoppedRun(env, instance, r.unpublished, result, sc.phase, sc.conditions.items)
    ensures result == Completed || result == Unpublished ==> WentThrough(env, instance)
    ensures Smooth(env, instance) && !r.unpublished ==> result == Completed
    ensures Smooth(env, instance) && (instance.external || !SawExpansion(Managers(false, env.standalone), env)) ==>
              result == Completed || result == Unpublished
  {
    ghost var entered := sc.phase;
    var objs := Managers(instance.external, env.standalone);
    var stop := RunManagers(objs, env, instance.external, r, sc);
    if stop.Some? {
      ghost var i :| StoppedAt(objs, i, env, instance.external, entered, r.unpublished, stop.value, sc.phase,
                               sc.conditions.items);
      StoppedBoth(objs, i, env, instance.external, entered, instance.phase, r.unpublished, stop.value, sc.phase,
                  sc.conditions.items);
      return stop.value;
    }
    GatheredPhase(objs, env, instance.external, entered, instance.phase, sc.phase, r.phase, r.conditions.items);
    stop := ApplyProfile(env, instance.external, sc);
    if stop.Some? { return stop.value; }
    ghost var before := sc.phase;
    result := Finish(env, instance.external, instance, clusters, stored, r, sc);
    FinishedTells(env, instance, stored, entered, r.phase, r.conditions.items, before, result, sc.phase,
                  sc.conditions.items, r.published);
  }

  /** All managers passed and the profile is settled. */
  ghost predicate WentThrough(env: Surroundings, instance: StorageCluster)
  {
    var objs := Managers(instance.external, env.standalone);
    AllPassed(objs, env, instance.external, |objs|) && ProfileSettled(env, instance.external)
  }

  /** Every manager goes through without an error or a requeue, and so does the profile. */
  ghost predicate Smooth(env: Surroundings, instance: StorageCluster)
  {
    AllFine(Managers(instance.external, env.standalone), env, instance.external) &&
        ProfileSettled(env, instance.external)
  }

  /** The cluster passes the gate and is not being deleted. */
  ghost predicate Admitted(env: Surroundings, instance: StorageCluster, stored: Stored)
  {
    && !instance.deleting && Prepared(env)
    && (instance.Live() || (instance.phase == Empty && Election.Active(env.operatorNamespace, stored, instance)))
  }

  /** `reconcilePhases` on a fresh snapshot of a validated instance; `persisted` are the
      conditions stored in the API server. */
  method ReconcilePhases(env: Surroundings, instance: StorageCluster, persisted: seq<Condition>,
                         clusters: Snapshot, ghost stored: Stored, r: Reconciler, sc: Instance)
    returns (result: Result)
    requires clusters.Shows(stored) && OneEach(persisted)
    requires instance.Key() in stored && stored[instance.Key()] == instance
    requires sc.phase == instance.phase && OneEach(sc.conditions.items)
    requires r.phase == Empty && r.conditions.items == [] && r.conditions != sc.conditions
    requires r.published == None && !r.unpublished
    modifies r`phase, r`published, r`unpublished, r.conditions, sc`phase, sc.conditions
    // The run is a step of the election protocol.
    ensures Election.MayLeave(env.operatorNamespace, stored, instance, sc.phase)
    // The operator is declared upgradeable only when everything is in order.
    ensures r.published == Some(true) ==> OthersReady(stored, instance)
    ensures r.published == Some(true) && !instance.deleting ==> sc.phase == Ready && MayUpgrade(env, instance, stored)
    // Who lost the election is ignored, and only that one.
    ensures result == LostElection <==>
              instance.phase == Ignored ||
                  (instance.phase == Empty && !Election.Active(env.operatorNamespace, stored, instance))
    ensures result == LostElection ==> sc.phase == Ignored && r.published == None
    // A pending cleanup asks for another run, and an unfinished preparation ends this one.
    ensures instance.deleting && instance.Live() ==>
              && (result == Requeued <==> env.hasFinalizer && env.deletion == CleanupPending)
              && (result == Requeued || !env.hasFinalizer ==> sc.phase == Deleting)
    ensures result == StoppedEarly <==>
              && result != LostElection && !instance.deleting
              && ((!env.hasFinalizer && !env.finalizerUpdated) || env.annotations != Kept)
    // By the election, declaring it leaves every live cluster Ready.
    ensures r.published == Some(true) && Election.Elected(env.operatorNamespace, stored) ==>
              LiveAreReady(stored, instance.Key(), sc.phase)
    // The final phase tells what the managers saw.
    ensures result == Completed || result == Unpublished ==>
              && Admitted(env, instance, stored)
              && Tells(env, instance, stored, result, sc.phase, sc.conditions.items, r.published)
    ensures result == Completed && SawNegative(Managers(instance.external, env.standalone), env, instance.external) ==>
              NegativeTells(instance.external, sc.phase == Expanding, sc.phase, sc.conditions.items, r.published)
    // A run that is stopped tells by what.
    ensures Admitted(env, instance, stored) ==>
              EarlyEndTells(env, instance, result, sc.phase, sc.conditions.items)
    // A run that nothing stands in the way of gets there.
    ensures Admitted(env, instance, stored) && Smooth(env, instance) && !r.unpublished ==> result == Completed
    ensures Admitted(env, instance, stored) && Smooth(env, instance) &&
            (instance.external || !SawExpansion(Managers(false, env.standalone), env)) ==>
              result == Completed || result == Unpublished
  {
    var proceed := Enter(env, instance, clusters, stored, sc);
    if !proceed { return LostElection; }
    if instance.deleting {
      result := Terminate(env, instance, clusters, stored, r, sc);
      if r.published == Some(true) && Election.Elected(env.operatorNamespace, stored) {
        UpgradeableMeansReady(env.operatorNamespace, stored, instance.Key(), sc.phase);
      }
      return;
    }
    proceed := Prepare(env, instance, persisted, sc);
    if !proceed { return StoppedEarly; }
    result := RunToEnd(env, instance, clusters, stored, r, sc);
    EarlyEnd(env, instance, r.unpublished, result, sc.phase, sc.conditions.items);
    if r.published == Some(true) && Election.Elected(env.operatorNamespace, stored) {
      UpgradeableMeansReady(env.operatorNamespace, stored, instance.Key(), sc.phase);
    }
  }

  // ----- consequences

  /** Beside clusters that are all Ready, a cluster that serves remote consumers may be
      upgraded only when it was counted that no client is unsupported. */
  lemma MayUpgradeIff(env: Surroundings, instance: StorageCluster, stored: Stored)
    ensures MayUpgrade(env, instance, stored) <==>
              && (!env.remoteConsumers || env.unsupportedClients == Some(0))
              && forall key | key in stored && stored[key].phase != Ready ::
                   stored[key].name == instance.name || stored[key].namespace == instance.namespace
  {
  }

  /** A NooBaa beside a CephCluster is left alone until that is created, or connected if the
      cluster is external; from then on an error on the way to it is the outcome, and every
      phase but Ready is negative. */
  lemma NoobaaWaitsForCeph(env: Surroundings, external: bool)
    requires !env.standalone && env.noobaa.inOperatorNamespace && !env.noobaa.ignored
    ensures var awaited := if external then C.Connected else C.Created;
            var outcome := OutcomeOf(NoobaaSystem, env, external);
            if env.noobaa.ceph == CephIn(awaited) then
              && outcome == Outcome(env.noobaa.failure, false)
              && (NegativeFrom(NoobaaSystem, env, external) <==>
                    env.noobaa.failure == NoFailure && env.noobaa.phase != NbReady)
            else
              && !NegativeFrom(NoobaaSystem, env, external)
              && outcome == if env.noobaa.ceph == CephUnreadable then Outcome(OtherFailure, false) else FINE
  {
  }

  /** With this phase on the cluster, every live cluster is Ready; the cluster itself need
      not be when it is being deleted. */
  ghost predicate LiveAreReady(stored: Stored, key: (string, string), phase: Phase)
    requires key in stored
  {
    var after := stored[key := stored[key].(phase := phase)];
    forall other :: other in after && after[other].Live() && (other != key || !stored[key].deleting) ==>
                      after[other].phase == Ready
  }

  /** A run that declares the operator upgradeable leaves every live cluster Ready, or, if
      it was a terminating one, every other live cluster. */
  lemma UpgradeableMeansReady(operatorNamespace: string, stored: Stored, key: (string, string), phase: Phase)
    requires Election.Elected(operatorNamespace, stored) && key in stored
    requires Election.MayLeave(operatorNamespace, stored, stored[key], phase)
    requires phase == Ready || (stored[key].deleting && stored[key].Live() && phase != Empty && phase != Ignored)
    requires OthersReady(stored, stored[key])
    ensures LiveAreReady(stored, key, phase)
  {
    var step := Election.Reconcile(key, phase);
    var after := Election.Apply(operatorNamespace, stored, step);
    Election.StepKeepsElected(operatorNamespace, stored, step);
    Election.UpgradeGate(after, key);
    assert OthersReady(after, after[key]);
  }

  /** Growth of the OSD sets ends a run in phase Expanding: all found sets are still
      desired, more OSDs are desired, and specs with different sets differ. */
  lemma GrowthMakesExpanding(env: Surroundings, instance: StorageCluster, stored: Stored, result: Result, phase: Phase,
                             conditions: seq<Condition>, published: Option<bool>)
    requires Tells(env, instance, stored, result, phase, conditions, published)
    requires !instance.external && !env.standalone
    requires env.ceph.CephFound? && (env.ceph.found != env.ceph.desired ==> env.ceph.differs)
    requires D.DistinctNames(env.ceph.found) && D.DistinctNames(env.ceph.desired)
    requires D.Names(env.ceph.found) <= D.Names(env.ceph.desired)
    requires D.Total(env.ceph.desired) > D.Total(env.ceph.found)
    ensures phase == Expanding
  {
    D.GrowthIsDetected(env.ceph.found, env.ceph.desired);
    assert ExpansionFrom(Managers(false, false)[6], env);
  }

  /** A cluster with fewer OSD sets desired than found never ends in phase Expanding, however
      much the remaining ones have grown. */
  lemma FewerSetsNeverExpand(env: Surroundings, instance: StorageCluster, stored: Stored, result: Result, phase: Phase,
                             conditions: seq<Condition>, published: Option<bool>)
    requires Tells(env, instance, stored, result, phase, conditions, published)
    requires !instance.external && env.ceph.CephFound? && |env.ceph.desired| < |env.ceph.found|
    ensures phase != Expanding
  {
    assert !Expands(env.ceph);
  }

  /** Surroundings in which nothing goes wrong but what the CephCluster and NooBaa say. */
  function Calm(ceph: CephView, noobaa: NoobaaView): Surroundings
  {
    Surroundings("ns", false, true, true, Kept, CleanupPending, ceph, noobaa, map[], Unchanged, false, None)
  }

  /** A cluster that was Ready stays Ready while its CephCluster is being updated, if the
      operator's condition cannot be published; otherwise it is Progressing. */
  lemma UnpublishedStaysReady() returns (env: Surroundings, instance: StorageCluster)
    ensures instance.phase == Ready && !instance.external && env.ceph.CephFound? && env.ceph.state == C.Updating
    ensures Smooth(env, instance)
    ensures forall stored, phase, conditions, published ::
              (Tells(env, instance, stored, Unpublished, phase, conditions, published) ==> phase == Ready) &&
              (Tells(env, instance, stored, Completed, phase, conditions, published) ==> phase == Phase.Progressing)
  {
    var noobaa := NoobaaView(true, false, CephIn(C.Updating), NoFailure, NbReady);
    env := Calm(CephFound(C.Updating, [], [], false, NoFailure), noobaa);
    instance := StorageCluster("ns", "a", false, 0, false, Ready);
    var objs := Managers(false, false);
    assert objs[6] == CephCluster && NegativeFrom(objs[6], env, false) && ProgressFrom(objs[6], env);
    assert !SawExpansion(objs, env);
  }

  /** A Progressing cluster whose first manager fails is left in phase Error, with the run
      failed; one whose storage classes were skipped goes on in the next run, and one that is
      onboarding goes on onboarding. */
  lemma FirstManagerFails(failure: Failure, instance: StorageCluster) returns (env: Surroundings)
    requires failure != NoFailure && !instance.external
    ensures env.outcomes == map[ProviderServer := Outcome(failure, false)] && !env.standalone
    ensures forall result, phase, conditions | EarlyEndTells(env, instance, result, phase, conditions) ::
              && StatusOf(conditions, ReconcileComplete) == Some(False)
              && (if instance.phase == Onboarding then phase == Onboarding && result == Failed
                  else if failure == ClassesSkipped then phase == Phase.Progressing && result == Requeued
                  else phase == Phase.Error && result == Failed)
  {
    var noobaa := NoobaaView(true, false, CephMissing, NoFailure, NbReady);
    env := Calm(CephUnmanaged, noobaa).(outcomes := map[ProviderServer := Outcome(failure, false)]);
    var objs := Managers(false, false);
    assert objs[0] == ProviderServer && OutcomeOf(objs[0], env, false) == Outcome(failure, false);
    assert !SawExpansion(objs[..1], env);
    assert Decides(env, instance, 0);
  }

  /** An external cluster is Ready beside a NooBaa that was rejected. */
  lemma ExternalReadyBesideNoobaa() returns (env: Surroundings, instance: StorageCluster)
    ensures instance.external && env.noobaa.phase == Rejected && NoobaaSeen(env.noobaa, true, false)
    ensures Smooth(env, instance) && SawNegative(Managers(true, false), env, true)
    ensures forall stored, result, phase, conditions, published ::
              Tells(env, instance, stored, result, phase, conditions, published) ==> phase == Ready
  {
    var noobaa := NoobaaView(true, false, CephIn(C.Connected), NoFailure, Rejected);
    env := Calm(CephFound(C.Connected, [], [], false, NoFailure), noobaa);
    instance := StorageCluster("ns", "a", true, 0, false, Ready);
    var objs := Managers(true, false);
    assert objs[4] == NoobaaSystem && NegativeFrom(objs[4], env, true);
  }

  /** So is one that was Ready and whose CephCluster is gone and is created anew. */
  lemma ExternalReadyWhileCreated() returns (env: Surroundings, instance: StorageCluster)
    ensures instance.external && instance.phase == Ready && env.ceph == CephCreated
    ensures Smooth(env, instance) && SawNegative(Managers(true, false), env, true)
    ensures forall stored, result, phase, conditions, published ::
              Tells(env, instance, stored, result, phase, conditions, published) ==> phase == Ready
  {
    var noobaa := NoobaaView(true, false, CephIn(C.Unreported), NoFailure, NbReady);
    env := Calm(CephCreated, noobaa);
    instance := StorageCluster("ns", "a", true, 0, false, Ready);
    var objs := Managers(true, false);
    assert objs[2] == CephCluster && NegativeFrom(objs[2], env, true);
  }
}
