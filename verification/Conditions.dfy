/** Status conditions, and how the states of the CephCluster and of NooBaa are turned
    into negative conditions. Reasons, messages and times are left out. */
module Conditions {
  import opened Collections

  datatype Kind =
    | ReconcileComplete | Available | Progressing | Degraded | Upgradeable
    | VersionMismatch | ExternalConnecting | ExternalConnected

  datatype Truth = True | False | Unknown

  datatype Condition = Condition(kind: Kind, status: Truth)

  datatype CephState = Unreported | Creating | Created | Updating | Connecting | Connected | Error

  datatype NoobaaPhase =
    | NoPhase | Rejected | Verifying | NbCreating | NbConnecting | Configuring | NbReady | Other

  /** The status of the first condition of that kind. */
  function StatusOf(items: seq<Condition>, kind: Kind): Option<Truth>
  {
    if items == [] then None
    else if items[0].kind == kind then Some(items[0].status)
    else StatusOf(items[1..], kind)
  }

  /** The list after one `SetStatusCondition`. */
  function Put(items: seq<Condition>, c: Condition): seq<Condition>
  {
    if items == [] then [c]
    else if items[0].kind == c.kind then [c] + items[1..]
    else [items[0]] + Put(items[1..], c)
  }

  ghost predicate OneEach(items: seq<Condition>)
  {
    forall i, j :: 0 <= i < j < |items| ==> items[i].kind != items[j].kind
  }

  lemma {:induction false} StatusOfPut(items: seq<Condition>, c: Condition, kind: Kind)
    ensures StatusOf(Put(items, c), kind) == if kind == c.kind then Some(c.status) else StatusOf(items, kind)
  {
    if items != [] && items[0].kind != c.kind {
      StatusOfPut(items[1..], c, kind);
      assert Put(items, c)[1..] == Put(items[1..], c);
    }
  }

  lemma {:induction false} StatusOfMissing(items: seq<Condition>, kind: Kind)
    requires forall i :: 0 <= i < |items| ==> items[i].kind != kind
    ensures StatusOf(items, kind) == None
  {
    if items != [] { StatusOfMissing(items[1..], kind); }
  }

  lemma {:induction false} StatusOfMember(items: seq<Condition>, i: nat)
    requires OneEach(items) && i < |items|
    ensures StatusOf(items, items[i].kind) == Some(items[i].status)
  {
    if i > 0 { StatusOfMember(items[1..], i - 1); }
  }

  lemma {:induction false} PutAt(items: seq<Condition>, c: Condition, i: nat)
    requires i <= |items| && forall j :: 0 <= j < i ==> items[j].kind != c.kind
    requires i < |items| ==> items[i].kind == c.kind
    ensures Put(items, c) == if i < |items| then items[i := c] else items + [c]
  {
    if i > 0 { PutAt(items[1..], c, i - 1); }
  }

  lemma {:induction false} PutKeepsOneEach(items: seq<Condition>, c: Condition)
    requires OneEach(items)
    ensures OneEach(Put(items, c)) && Put(items, c) != []
    ensures forall k :: 0 <= k < |Put(items, c)| ==> Put(items, c)[k] == c || Put(items, c)[k] in items
  {
    if items != [] && items[0].kind != c.kind {
      PutKeepsOneEach(items[1..], c);
    }
  }

  /** The list without the conditions of one kind. */
  function Drop(items: seq<Condition>, kind: Kind): seq<Condition>
  {
    if items == [] then []
    else (if items[0].kind == kind then [] else [items[0]]) + Drop(items[1..], kind)
  }

  lemma {:induction false} DropKeepsOneEach(items: seq<Condition>, kind: Kind)
    requires OneEach(items)
    ensures OneEach(Drop(items, kind)) && forall k :: 0 <= k < |Drop(items, kind)| ==> Drop(items, kind)[k] in items
  {
    if items != [] {
      var rest := Drop(items[1..], kind);
      DropKeepsOneEach(items[1..], kind);
      forall k | 0 <= k < |rest| ensures rest[k] in items && rest[k].kind != items[0].kind {
        var j :| 0 <= j < |items[1..]| && items[1..][j] == rest[k];
        assert items[j + 1] == rest[k];
      }
      assert Drop(items, kind) == if items[0].kind == kind then rest else [items[0]] + rest;
    }
  }

  lemma {:induction false} StatusOfDrop(items: seq<Condition>, kind: Kind, other: Kind)
    ensures StatusOf(Drop(items, kind), other) == if other == kind then None else StatusOf(items, other)
  {
    if items != [] {
      StatusOfDrop(items[1..], kind, other);
      if items[0].kind == kind {
        assert Drop(items, kind) == Drop(items[1..], kind);
      } else {
        assert Drop(items, kind)[1..] == Drop(items[1..], kind);
      }
    }
  }

  /** What a CephCluster in this state says about the conditions of an internal cluster. */
  function CephSays(state: CephState, kind: Kind): Option<Truth>
  {
    match (state, kind)
    case (Creating, Progressing) => Some(True)
    case (Creating, Upgradeable) => Some(False)
    case (Updating, Progressing) => Some(True)
    case (Updating, Upgradeable) => Some(False)
    case (Error, Available) => Some(False)
    case (Error, Degraded) => Some(True)
    case _ => None
  }

  predicate CephNegative(state: CephState)
  {
    state == Creating || state == Updating || state == Error
  }

  function NothingReportedSays(kind: Kind): Option<Truth>
  {
    match kind
    case Available => Some(False)
    case Progressing => Some(True)
    case Upgradeable => Some(False)
    case _ => None
  }

  /** What a CephCluster in this state says about the conditions of an external cluster. */
  function ExternalSays(state: CephState, kind: Kind): Option<Truth>
  {
    match (state, kind)
    case (Connecting, ExternalConnecting) => Some(True)
    case (Connecting, ExternalConnected) => Some(False)
    case (Error, ExternalConnecting) => Some(False)
    case (Error, ExternalConnected) => Some(False)
    case _ => None
  }

  /** What a NooBaa says; `None` is a NooBaa that does not exist. */
  function NoobaaSays(found: Option<NoobaaPhase>, kind: Kind): Option<Truth>
  {
    match found
    case None => if kind == Degraded then Some(True) else None
    case Some(NbReady) => None
    case Some(Rejected) => if kind == Degraded then Some(True) else None
    case Some(Other) => if kind == Degraded then Some(True) else None
    case Some(_) => if kind == Progressing then Some(True) else None
  }

  /** The five conditions of a cluster whose reconcile has just started. */
  function StartSays(kind: Kind): Option<Truth>
  {
    match kind
    case ReconcileComplete => Some(Unknown)
    case Available => Some(False)
    case Progressing => Some(True)
    case Degraded => Some(False)
    case Upgradeable => Some(Unknown)
    case _ => None
  }

  /** The five conditions of a cluster that is in order. */
  function CompleteSays(kind: Kind): Option<Truth>
  {
    match kind
    case ReconcileComplete => Some(True)
    case Available => Some(True)
    case Progressing => Some(False)
    case Degraded => Some(False)
    case Upgradeable => Some(True)
    case _ => None
  }

  /** What counts as bad news about a cluster. */
  predicate Negative(kind: Kind, status: Truth)
  {
    match kind
    case Available => status == False
    case Progressing => status == True
    case Degraded => status == True
    case Upgradeable => status == False
    case _ => false
  }

  /** The CephCluster and NooBaa only ever report bad news. A CephCluster that is created or
      updated is in progress and blocks upgrades, and so does one that reports nothing, which
      is not available either; one in error is degraded and not available. A NooBaa that is
      missing, rejected or in an unknown phase is degraded, and any other that is not ready is
      in progress. */
  lemma OnlyBadNews(state: CephState, found: Option<NoobaaPhase>, kind: Kind)
    ensures CephSays(state, kind).Some? <==>
              || ((state == Creating || state == Updating) && (kind == Progressing || kind == Upgradeable))
              || (state == Error && (kind == Available || kind == Degraded))
    ensures NothingReportedSays(kind).Some? <==> kind == Available || kind == Progressing || kind == Upgradeable
    ensures NoobaaSays(found, kind).Some? <==>
              if found == None || found == Some(Rejected) || found == Some(Other) then kind == Degraded
              else found != Some(NbReady) && kind == Progressing
    ensures CephSays(state, kind).Some? ==> Negative(kind, CephSays(state, kind).value)
    ensures NothingReportedSays(kind).Some? ==> Negative(kind, NothingReportedSays(kind).value)
    ensures NoobaaSays(found, kind).Some? ==> Negative(kind, NoobaaSays(found, kind).value)
    ensures CephNegative(state) <==> exists k :: CephSays(state, k).Some?
  {
    assert CephNegative(state) ==> CephSays(state, if state == Error then Degraded else Progressing).Some?;
  }

  function Else(a: Option<Truth>, b: Option<Truth>): Option<Truth>
  {
    if a.Some? then a else b
  }

  class ConditionList {
    var items: seq<Condition>

    constructor ()
      ensures items == []
    {
      items := [];
    }

    method SetStatusCondition(c: Condition)
      requires OneEach(items)
      modifies this
      ensures OneEach(items) && items != []
      ensures forall kind :: StatusOf(items, kind) == if kind == c.kind then Some(c.status)
              else StatusOf(old(items), kind)
    {
      PutKeepsOneEach(items, c);
      forall kind { StatusOfPut(items, c, kind); }
      var i := 0;
      while i < |items| && items[i].kind != c.kind
        invariant 0 <= i <= |items| && items == old(items)
        invariant forall j :: 0 <= j < i ==> items[j].kind != c.kind
      {
        i := i + 1;
      }
      PutAt(items, c, i);
      if i == |items| {
        items := items + [c];
      } else {
        items := items[i := c];
      }
    }

    /** Leaves a condition of the same kind and status alone. */
    method SetStatusConditionIfNotPresent(c: Condition)
      requires OneEach(items)
      modifies this
      ensures OneEach(items) && items != []
      ensures forall kind :: StatusOf(items, kind) == if kind == c.kind then Some(c.status)
              else StatusOf(old(items), kind)
    {
      if StatusOf(items, c.kind) == Some(c.status) { return; }
      SetStatusCondition(c);
    }

    method SetErrorCondition()
      requires OneEach(items)
      modifies this
      ensures OneEach(items)
      ensures forall kind :: StatusOf(items, kind) == if kind == ReconcileComplete then Some(False)
              else StatusOf(old(items), kind)
    {
      SetStatusCondition(Condition(ReconcileComplete, False));
    }

    method SetProgressingCondition()
      requires OneEach(items)
      modifies this
      ensures OneEach(items)
      ensures forall kind :: StatusOf(items, kind) == Else(StartSays(kind), StatusOf(old(items), kind))
    {
      SetStatusCondition(Condition(ReconcileComplete, Unknown));
      SetStatusCondition(Condition(Available, False));
      SetStatusCondition(Condition(Progressing, True));
      SetStatusCondition(Condition(Degraded, False));
      SetStatusCondition(Condition(Upgradeable, Unknown));
    }

    /** All conditions positive; kinds outside the five stay as they are. */
    method SetCompleteCondition()
      requires OneEach(items)
      modifies this
      ensures OneEach(items)
      ensures forall kind :: StatusOf(items, kind) == Else(CompleteSays(kind), StatusOf(old(items), kind))
    {
      SetStatusCondition(Condition(ReconcileComplete, True));
      SetStatusCondition(Condition(Available, True));
      SetStatusCondition(Condition(Progressing, False));
      SetStatusCondition(Condition(Degraded, False));
      SetStatusCondition(Condition(Upgradeable, True));
    }

    method MapCephClusterNegativeConditions(state: CephState)
      requires OneEach(items)
      modifies this
      ensures OneEach(items)
      ensures forall kind :: StatusOf(items, kind) == Else(CephSays(state, kind), StatusOf(old(items), kind))
      ensures items == [] <==> old(items) == [] && !CephNegative(state)
    {
      match state {
        case Creating =>
          SetStatusCondition(Condition(Progressing, True));
          SetStatusCondition(Condition(Upgradeable, False));
        case Updating =>
          SetStatusCondition(Condition(Progressing, True));
          SetStatusCondition(Condition(Upgradeable, False));
        case Error =>
          SetStatusCondition(Condition(Available, False));
          SetStatusCondition(Condition(Degraded, True));
        case _ =>
      }
    }

    method MapExternalCephClusterNegativeConditions(state: CephState)
      requires OneEach(items)
      modifies this
      ensures OneEach(items)
      ensures forall kind :: StatusOf(items, kind) == Else(ExternalSays(state, kind), StatusOf(old(items), kind))
      ensures items == [] <==> old(items) == [] && state != Connecting && state != Error
    {
      match state {
        case Connecting =>
          SetStatusCondition(Condition(ExternalConnecting, True));
          SetStatusCondition(Condition(ExternalConnected, False));
        case Error =>
          SetStatusCondition(Condition(ExternalConnected, False));
          SetStatusCondition(Condition(ExternalConnecting, False));
        case _ =>
      }
    }

    method MapCephClusterNoConditions()
      requires OneEach(items)
      modifies this
      ensures OneEach(items) && items != []
      ensures forall kind :: StatusOf(items, kind) == Else(NothingReportedSays(kind), StatusOf(old(items), kind))
    {
      SetStatusCondition(Condition(Available, False));
      SetStatusCondition(Condition(Progressing, True));
      SetStatusCondition(Condition(Upgradeable, False));
    }

    method MapNoobaaNegativeConditions(found: Option<NoobaaPhase>)
      requires OneEach(items)
      modifies this
      ensures OneEach(items)
      ensures forall kind :: StatusOf(items, kind) == Else(NoobaaSays(found, kind), StatusOf(old(items), kind))
      ensures items == [] <==> old(items) == [] && found == Some(NbReady)
    {
      if found.None? {
        SetStatusConditionIfNotPresent(Condition(Degraded, True));
        return;
      }
      match found.value {
        case Rejected => SetStatusConditionIfNotPresent(Condition(Degraded, True));
        case NoPhase | Verifying | NbCreating | NbConnecting | Configuring =>
          SetStatusConditionIfNotPresent(Condition(Progressing, True));
        case NbReady =>
        case Other => SetStatusConditionIfNotPresent(Condition(Degraded, True));
      }
    }

    method RemoveStatusCondition(kind: Kind)
      requires OneEach(items)
      modifies this
      ensures OneEach(items)
      ensures forall other :: StatusOf(items, other) == if other == kind then None else StatusOf(old(items), other)
    {
      forall other { StatusOfDrop(items, kind, other); }
      DropKeepsOneEach(items, kind);
      items := Drop(items, kind);
    }

    /** Writing the conditions gathered in one run over the ones of the object. */
    method Merge(gathered: ConditionList)
      requires gathered != this && OneEach(items) && OneEach(gathered.items)
      modifies this
      ensures OneEach(items)
      ensures forall kind :: StatusOf(items, kind) == Else(StatusOf(gathered.items, kind), StatusOf(old(items), kind))
    {
      for i := 0 to |gathered.items|
        invariant OneEach(items) && OneEach(gathered.items) && gathered.items == old(gathered.items)
        invariant forall kind ::
          StatusOf(items, kind) ==
          if exists j :: 0 <= j < i && gathered.items[j].kind == kind then StatusOf(gathered.items, kind)
          else StatusOf(old(items), kind)
      {
        StatusOfMember(gathered.items, i);
        SetStatusCondition(gathered.items[i]);
      }
      forall kind | StatusOf(gathered.items, kind).Some?
        ensures exists j :: 0 <= j < |gathered.items| && gathered.items[j].kind == kind
      {
        if forall j :: 0 <= j < |gathered.items| ==> gathered.items[j].kind != kind {
          StatusOfMissing(gathered.items, kind);
        }
      }
      forall j | 0 <= j < |gathered.items| { StatusOfMember(gathered.items, j); }
    }
  }
}
