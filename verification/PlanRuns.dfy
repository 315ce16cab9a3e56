/**
 * Whole runs over an engineering plan: it is adopted or replaced, its items are completed one by
 * one, and it is retired by a frozen repair request (generation/delivery.py,
 * generation/engineering/checks.py and checkpoint.py, orchestration/code_engineer.py).
 *
 * EngineerPlan is the checkpoint with its updates in place.  Its methods are proved against the
 * functions on PlanState, and the theorems are about every sequence of those updates.
 */
module PlanRuns {
  import opened Results
  import opened Graphs
  import opened AppSpecs
  import opened SystemDesigns
  import opened Texts
  import opened DeliveryPlans
  import opened DeliverySuggestions
  import opened RepairPlans
  import opened DeliveryRevisions

  datatype Identity = Identity(revision: string, message: string)

  datatype Outcome = Running | Generated | Blocked

  datatype PlanVersion = PlanVersion(items: seq<WorkItem>, modelTurn: nat, superseded: bool)

  datatype PlanState = PlanState(
    items: seq<WorkItem>,
    current: Option<string>,
    needsPlan: bool,
    repair: Option<Identity>,
    history: seq<PlanVersion>,
    outcome: Outcome)

  // ---------------------------------------------------------------- the next item

  function CompletedIds(items: seq<WorkItem>): set<string> {
    set x | x in Finished(items) :: x.plan.id
  }

  predicate Runnable(items: seq<WorkItem>, i: nat)
    requires i < |items|
  {
    items[i].status == "pending" && Elements(items[i].plan.dependsOn) <= CompletedIds(items)
  }

  function NextFrom(items: seq<WorkItem>, from: nat): (k: Option<nat>)
    requires from <= |items|
    ensures k.Some? ==> from <= k.value < |items| && Runnable(items, k.value)
    ensures k.None? ==> forall i :: from <= i < |items| ==> !Runnable(items, i)
    decreases |items| - from
  {
    if from == |items| then None else if Runnable(items, from) then Some(from) else NextFrom(items, from + 1)
  }

  // The first pending item whose dependencies are all completed.
  function Next(items: seq<WorkItem>): Option<nat> {
    NextFrom(items, 0)
  }

  function NextId(items: seq<WorkItem>): Option<string> {
    var k := Next(items);
    if k.Some? then Some(items[k.value].plan.id) else None
  }

  function CompletedItems(items: seq<WorkItem>): (r: seq<WorkItem>)
    ensures forall x :: x in r <==> x in items && Completed(x)
  {
    if items == [] then []
    else
      var n := |items| - 1;
      assert forall x :: x in items <==> x in items[..n] || x == items[n];
      CompletedItems(items[..n]) + if Completed(items[n]) then [items[n]] else []
  }

  // ---------------------------------------------------------------- the updates as functions

  function Migrated(s: PlanState, modelTurn: nat, request: Identity): PlanState {
    s.(items := CompletedItems(s.items), current := None, needsPlan := true, repair := Some(request),
       history := if s.items == [] then s.history else s.history + [PlanVersion(s.items, modelTurn, true)])
  }

  function Adopted(s: PlanState, modelTurn: nat, items: seq<WorkItem>): PlanState {
    s.(items := items, needsPlan := false, current := NextId(items),
       history := s.history + [PlanVersion(items, modelTurn, false)])
  }

  function WithDone(items: seq<WorkItem>, k: nat, summary: string): seq<WorkItem>
    requires k < |items|
  {
    items[k := items[k].(status := "completed", summary := Some(summary))]
  }

  predicate AllCompleted(items: seq<WorkItem>) {
    forall i :: 0 <= i < |items| ==> Completed(items[i])
  }

  // Whether completing the item needs the full integration check.
  predicate NeedsFullCheck(items: seq<WorkItem>, k: nat)
    requires k < |items|
  {
    items[k].plan.provisions != [] || forall i :: 0 <= i < |items| ==> Completed(items[i]) || items[i].plan.id == items[k].plan.id
  }

  predicate MayComplete(s: PlanState, id: string, fullCheck: bool) {
    var k := Next(s.items);
    !s.needsPlan && k.Some? && s.items[k.value].plan.id == id && (NeedsFullCheck(s.items, k.value) ==> fullCheck)
  }

  function CompletedNow(s: PlanState, summary: string): PlanState
    requires Next(s.items).Some?
  {
    var items := WithDone(s.items, Next(s.items).value, summary);
    s.(items := items, current := NextId(items),
       outcome := if Next(items).Some? then s.outcome else if AllCompleted(items) then Generated else Blocked)
  }

  // ---------------------------------------------------------------- the checkpoint in place

  class EngineerPlan {
    var workItems: seq<WorkItem>
    var currentId: Option<string>
    var needsPlan: bool
    var repairIdentity: Option<Identity>
    var planHistory: seq<PlanVersion>
    var outcome: Outcome
    var modelTurns: nat
    var noProgressSteps: nat
    var stepsWithoutDelivery: nat

    ghost function View(): PlanState
      reads this
    {
      PlanState(workItems, currentId, needsPlan, repairIdentity, planHistory, outcome)
    }

    constructor ()
      ensures View() == PlanState([], None, true, None, [], Running)
      ensures modelTurns == noProgressSteps == stepsWithoutDelivery == 0
    {
      workItems, currentId, needsPlan, repairIdentity, planHistory, outcome := [], None, true, None, [], Running;
      modelTurns, noProgressSteps, stepsWithoutDelivery := 0, 0, 0;
    }

    /**
     * Retires the plan once per repair request: asked again with the same identity it does
     * nothing, asked with another it is refused and changes nothing.
     */
    method MigrateImplementationRepairPlan(request: Identity) returns (r: Result<bool, string>)
      modifies this
      ensures modelTurns == old(modelTurns)
      ensures old(repairIdentity).None? ==>
                && r == Ok(true) && View() == Migrated(old(View()), modelTurns, request)
                && noProgressSteps == stepsWithoutDelivery == 0
      ensures old(repairIdentity).Some? ==>
                && (if old(repairIdentity) == Some(request) then r == Ok(false) else r.Err?)
                && View() == old(View())
                && noProgressSteps == old(noProgressSteps) && stepsWithoutDelivery == old(stepsWithoutDelivery)
    {
      if repairIdentity.Some? {
        return if repairIdentity.value == request then Ok(false) else Err("another repair request");
      }
      var previous := workItems;
      if previous != [] {
        planHistory := planHistory + [PlanVersion(previous, modelTurns, true)];
      }
      workItems := CompletedItems(previous);
      currentId, needsPlan, repairIdentity := None, true, Some(request);
      noProgressSteps, stepsWithoutDelivery := 0, 0;
      return Ok(true);
    }

    /** Adopts a proposal when its replacement of the current plan is accepted and changes something. */
    method UpdateDeliveryPlan(
        spec: AppSpec, proposed: seq<PlannedItem>, design: Option<Design>, targets: seq<string>) returns (adopted: bool)
      modifies this
      ensures var repair := if old(repairIdentity).Some? then Some(targets) else None;
              var merged := MergeAll(proposed, old(workItems), repair.Some?);
              && adopted == (&& merged.Some? && ValidPlan(spec, merged.value, design, repair)
                             && !(merged.value == old(workItems) && !old(needsPlan)))
              && View() == if adopted then Adopted(old(View()), modelTurns, merged.value) else old(View())
      ensures modelTurns == old(modelTurns)
    {
      var repair := if repairIdentity.Some? then Some(targets) else None;
      var revised := ReplaceDeliveryPlan(spec, proposed, workItems, design, repair);
      if revised.Err? || (revised.value == workItems && !needsPlan) {
        return false;
      }
      workItems, needsPlan := revised.value, false;
      currentId := NextId(revised.value);
      planHistory := planHistory + [PlanVersion(revised.value, modelTurns, false)];
      return true;
    }

    /** Completes the current item after a successful check, or refuses and changes nothing. */
    method ApplyCheckPassed(itemId: string, summary: string, fullCheck: bool) returns (done: bool)
      requires !needsPlan
      modifies this
      ensures done == MayComplete(old(View()), itemId, fullCheck)
      ensures View() == if done then CompletedNow(old(View()), summary) else old(View())
    {
      var k := Next(workItems);
      if k.None? || workItems[k.value].plan.id != itemId {
        return false;
      }
      if NeedsFullCheck(workItems, k.value) && !fullCheck {
        return false;
      }
      workItems := WithDone(workItems, k.value, summary);
      var next := Next(workItems);
      currentId := NextId(workItems);
      if next.None? {
        outcome := if AllCompleted(workItems) then Generated else Blocked;
      }
      return true;
    }
  }

  // ---------------------------------------------------------------- all runs

  datatype Move =
    | Migrate(request: Identity)
    | Adopt(proposed: seq<PlannedItem>, design: Option<Design>)
    | Complete(id: string, summary: string, fullCheck: bool)

  const EMPTY := PlanState([], None, true, None, [], Running)

  // One update; a refused one leaves the state alone.  `targets` gives the targets of a request.
  ghost function Apply(s: PlanState, spec: AppSpec, targets: Identity -> seq<string>, move: Move): PlanState {
    if s.outcome != Running then s
    else
      match move
      case Migrate(request) => if s.repair.Some? then s else Migrated(s, 0, request)
      case Adopt(proposed, design) =>
        var repair := if s.repair.Some? then Some(targets(s.repair.value)) else None;
        var merged := MergeAll(proposed, s.items, repair.Some?);
        if merged.Some? && ValidPlan(spec, merged.value, design, repair) then Adopted(s, 0, merged.value) else s
      case Complete(id, summary, fullCheck) => if MayComplete(s, id, fullCheck) then CompletedNow(s, summary) else s
  }

  ghost function After(spec: AppSpec, targets: Identity -> seq<string>, moves: seq<Move>): PlanState
    decreases |moves|
  {
    if moves == [] then EMPTY
    else Apply(After(spec, targets, moves[..|moves| - 1]), spec, targets, moves[|moves| - 1])
  }

  // The dependencies of a completed item are completed.
  ghost predicate CompletedClosed(items: seq<WorkItem>) {
    forall x :: x in Finished(items) ==> Elements(x.plan.dependsOn) <= CompletedIds(items)
  }

  ghost predicate PlanShape(spec: AppSpec, items: seq<WorkItem>, repairing: bool) {
    && Distinct(Ids(items)) && AllLinked(spec, items, repairing) && !Cyclic(PlanGraph(items))
    && (forall i :: 0 <= i < |items| ==> items[i].status == "pending" || Completed(items[i]))
    && CompletedClosed(items)
  }

  // What an adopted plan was accepted for.
  ghost predicate Purpose(s: PlanState, spec: AppSpec, targets: Identity -> seq<string>) {
    if s.repair.None? then Covers(spec, s.items)
    else forall t :: t in targets(s.repair.value) ==> TargetKept(s.items, t)
  }

  ghost predicate Inv(s: PlanState, spec: AppSpec, targets: Identity -> seq<string>) {
    && PlanShape(spec, s.items, s.repair.Some?)
    && (!s.needsPlan ==> Purpose(s, spec, targets))
    && s.outcome != Blocked
    && (s.outcome == Generated ==> !s.needsPlan && AllCompleted(s.items))
  }

  // ---- a plan with unfinished items has one to work on

  lemma {:induction false} SameIdSameItem(items: seq<WorkItem>, i: nat, x: WorkItem)
    requires Distinct(Ids(items)) && i < |items| && x in items && x.plan.id == items[i].plan.id
    ensures x == items[i]
  {
    var j :| 0 <= j < |items| && items[j] == x;
    var ids := Ids(items);
    assert ids[j] == ids[i];
  }

  lemma {:induction false} OpenItemIsOpen(items: seq<WorkItem>, i: nat)
    requires Distinct(Ids(items)) && i < |items|
    ensures items[i].plan.id in PlanGraph(items).Keys
    ensures Completed(items[i]) <==> items[i].plan.id in CompletedIds(items)
  {
    PlanGraphAt(items, i);
    if items[i].plan.id in CompletedIds(items) {
      var x :| x in Finished(items) && x.plan.id == items[i].plan.id;
      SameIdSameItem(items, i, x);
    }
    if Completed(items[i]) {
      assert items[i] in Finished(items);
    }
  }

  lemma {:induction false} KeyIsItem(items: seq<WorkItem>, k: string) returns (i: nat)
    requires k in PlanGraph(items)
    ensures i < |items| && items[i].plan.id == k
  {
    i :| 0 <= i < |items| && Ids(items)[i] == k;
  }

  /** A sound plan with an unfinished item always has a pending one whose dependencies are completed. */
  lemma {:induction false} UnfinishedPlanHasNext(spec: AppSpec, items: seq<WorkItem>, repairing: bool)
    requires PlanShape(spec, items, repairing) && !AllCompleted(items)
    ensures Next(items).Some?
  {
    var g := PlanGraph(items);
    var open := g.Keys - CompletedIds(items);
    var j :| 0 <= j < |items| && !Completed(items[j]);
    OpenItemIsOpen(items, j);
    assert items[j].plan.id in open;
    var k := AcyclicHasReady(g, open);
    var i := KeyIsItem(items, k);
    OpenItemIsOpen(items, i);
    assert Linked(items[i].plan, FeatureIds(spec), Elements(Ids(items)), repairing);
    PlanGraphAt(items, i);
    assert g[k] <= CompletedIds(items) by {
      assert forall d :: d in g[k] ==> d in g.Keys && d !in open;
    }
    assert Runnable(items, i);
  }

  // ---- every update keeps the invariant

  lemma {:induction false} SamePlansSameGraph(a: seq<WorkItem>, b: seq<WorkItem>)
    requires |a| == |b| && forall i :: 0 <= i < |a| ==> a[i].plan == b[i].plan
    ensures Ids(a) == Ids(b) && PlanGraph(a) == PlanGraph(b)
    decreases |a|
  {
    if a != [] {
      var n := |a| - 1;
      SamePlansSameGraph(a[..n], b[..n]);
    }
  }

  lemma {:induction false} CompletedIdsGrow(items: seq<WorkItem>, k: nat, summary: string)
    requires k < |items| && !Completed(items[k])
    ensures Finished(WithDone(items, k, summary)) == Finished(items) + {WithDone(items, k, summary)[k]}
  {
    var after := WithDone(items, k, summary);
    forall x
      ensures x in Finished(after) <==> x in Finished(items) || x == after[k]
    {
      if x in Finished(items) {
        var j :| 0 <= j < |items| && items[j] == x;
        assert after[j] == x;
      }
    }
  }

  lemma {:induction false} CompletingKeepsShape(spec: AppSpec, items: seq<WorkItem>, repairing: bool, k: nat, summary: string)
    requires PlanShape(spec, items, repairing) && k < |items| && Runnable(items, k)
    ensures PlanShape(spec, WithDone(items, k, summary), repairing)
  {
    var after := WithDone(items, k, summary);
    SamePlansSameGraph(items, after);
    CompletedIdsGrow(items, k, summary);
    assert CompletedIds(items) <= CompletedIds(after) by {
      forall d | d in CompletedIds(items)
        ensures d in CompletedIds(after)
      {
        var x :| x in Finished(items) && x.plan.id == d;
        assert x in Finished(after);
      }
    }
    forall i | 0 <= i < |after|
      ensures Linked(after[i].plan, FeatureIds(spec), Elements(Ids(after)), repairing)
    {
      assert Linked(items[i].plan, FeatureIds(spec), Elements(Ids(items)), repairing);
    }
  }

  lemma {:induction false} CompletingKeepsPurpose(
      s: PlanState, spec: AppSpec, targets: Identity -> seq<string>, k: nat, summary: string)
    requires k < |s.items| && Purpose(s, spec, targets)
    ensures Purpose(s.(items := WithDone(s.items, k, summary)), spec, targets)
  {
    var after := WithDone(s.items, k, summary);
    assert forall i :: 0 <= i < |after| ==> after[i].plan == s.items[i].plan;
    if s.repair.None? {
      forall f | f in FeatureIds(spec)
        ensures CoveredBy(after, f)
      {
        var i :| 0 <= i < |s.items| && s.items[i].plan.kind.Feature? && f in s.items[i].plan.requirementIds;
        assert after[i].plan.kind.Feature?;
      }
    } else {
      forall t | t in targets(s.repair.value)
        ensures TargetKept(after, t)
      {
        var j :| 0 <= j < |s.items| && s.items[j].plan.kind.Repair? && Occurs(t, Observed(s.items[j].plan));
        assert after[j].plan.kind.Repair?;
      }
    }
  }

  lemma {:induction false} CompletingKeepsInv(
      s: PlanState, spec: AppSpec, targets: Identity -> seq<string>, id: string, summary: string, fullCheck: bool)
    requires Inv(s, spec, targets) && s.outcome == Running && MayComplete(s, id, fullCheck)
    ensures Inv(CompletedNow(s, summary), spec, targets)
  {
    var k := Next(s.items).value;
    var after := WithDone(s.items, k, summary);
    CompletingKeepsShape(spec, s.items, s.repair.Some?, k, summary);
    CompletingKeepsPurpose(s, spec, targets, k, summary);
    if !AllCompleted(after) {
      UnfinishedPlanHasNext(spec, after, s.repair.Some?);
    }
    assert Purpose(CompletedNow(s, summary), spec, targets);
  }

  lemma {:induction false} AdoptingKeepsClosed(proposed: seq<PlannedItem>, previous: seq<WorkItem>, repairing: bool)
    requires MergeAll(proposed, previous, repairing).Some? && Distinct(Ids(previous)) && CompletedClosed(previous)
    ensures CompletedClosed(MergeAll(proposed, previous, repairing).value)
    ensures forall x :: x in MergeAll(proposed, previous, repairing).value ==> x.status == "pending" || Completed(x)
  {
    ReplanningConservesFinishedWork(proposed, previous, repairing);
  }

  lemma {:induction false} AdoptingKeepsInv(
      s: PlanState, spec: AppSpec, targets: Identity -> seq<string>, proposed: seq<PlannedItem>, design: Option<Design>)
    requires Inv(s, spec, targets) && s.outcome == Running
    ensures Inv(Apply(s, spec, targets, Adopt(proposed, design)), spec, targets)
  {
    var repair := if s.repair.Some? then Some(targets(s.repair.value)) else None;
    var merged := MergeAll(proposed, s.items, repair.Some?);
    if merged.Some? && ValidPlan(spec, merged.value, design, repair) {
      var items := merged.value;
      AdoptingKeepsClosed(proposed, s.items, repair.Some?);
      assert forall i :: 0 <= i < |items| ==> items[i] in items;
      assert AllLinked(spec, items, repair.Some?);
    }
  }

  // ---- retiring a plan keeps its completed part

  lemma {:induction false} CompletedItemsDistinct(items: seq<WorkItem>)
    requires Distinct(Ids(items))
    ensures Distinct(Ids(CompletedItems(items)))
    decreases |items|
  {
    if items != [] {
      var n := |items| - 1;
      assert Ids(items[..n]) == Ids(items)[..n];
      CompletedItemsDistinct(items[..n]);
      var front := CompletedItems(items[..n]);
      if Completed(items[n]) {
        forall i | 0 <= i < |front|
          ensures Ids(front)[i] != items[n].plan.id
        {
          assert front[i] in items[..n];
          var j :| 0 <= j < n && items[j] == front[i];
          assert Ids(items)[j] != Ids(items)[n];
        }
        assert Ids(front + [items[n]]) == Ids(front) + [items[n].plan.id];
      }
    }
  }

  lemma {:induction false} CompletedIdsOfPart(items: seq<WorkItem>)
    ensures Finished(CompletedItems(items)) == Finished(items)
    ensures Elements(Ids(CompletedItems(items))) == CompletedIds(items)
  {
    var part := CompletedItems(items);
    assert Finished(part) == Finished(items);
    forall d
      ensures d in Elements(Ids(part)) <==> d in CompletedIds(items)
    {
      if d in Elements(Ids(part)) {
        var i :| 0 <= i < |part| && Ids(part)[i] == d;
        assert part[i] in Finished(items);
      }
      if d in CompletedIds(items) {
        var x :| x in Finished(items) && x.plan.id == d;
        var i :| 0 <= i < |part| && part[i] == x;
        assert Ids(part)[i] == d;
      }
    }
  }

  lemma {:induction false} PartKeepsEdges(items: seq<WorkItem>, k: string)
    requires Distinct(Ids(items)) && k in PlanGraph(CompletedItems(items))
    ensures k in PlanGraph(items) && PlanGraph(items)[k] == PlanGraph(CompletedItems(items))[k]
  {
    var part := CompletedItems(items);
    CompletedItemsDistinct(items);
    var i := KeyIsItem(part, k);
    assert part[i] in part;
    var j :| 0 <= j < |items| && items[j] == part[i];
    PlanGraphAt(part, i);
    PlanGraphAt(items, j);
  }

  lemma {:induction false} PartLinked(spec: AppSpec, items: seq<WorkItem>, repairing: bool)
    requires PlanShape(spec, items, repairing)
    ensures AllLinked(spec, CompletedItems(items), true)
  {
    var part := CompletedItems(items);
    CompletedIdsOfPart(items);
    forall i | 0 <= i < |part|
      ensures Linked(part[i].plan, FeatureIds(spec), Elements(Ids(part)), true)
    {
      assert part[i] in items && part[i] in Finished(items);
      var j :| 0 <= j < |items| && items[j] == part[i];
      assert Linked(items[j].plan, FeatureIds(spec), Elements(Ids(items)), repairing);
    }
  }

  /** What is completed of a sound plan is a sound plan by itself, all of it completed. */
  lemma {:induction false} CompletedPartStandsAlone(spec: AppSpec, items: seq<WorkItem>, repairing: bool)
    requires PlanShape(spec, items, repairing)
    ensures PlanShape(spec, CompletedItems(items), true)
    ensures FeatureIds(spec) != {} ==> StandsAlone(spec, CompletedItems(items))
  {
    var part := CompletedItems(items);
    CompletedItemsDistinct(items);
    CompletedIdsOfPart(items);
    PartLinked(spec, items, repairing);
    forall k | k in PlanGraph(part)
      ensures k in PlanGraph(items) && PlanGraph(part)[k] == PlanGraph(items)[k]
    {
      PartKeepsEdges(items, k);
    }
    SubgraphAcyclic(PlanGraph(items), PlanGraph(part));
    assert forall i :: 0 <= i < |part| ==> part[i] in part;
    assert CompletedIds(part) == CompletedIds(items);
  }

  lemma {:induction false} NoRepairItems(spec: AppSpec, items: seq<WorkItem>)
    requires AllLinked(spec, items, false)
    ensures RepairCount(CompletedItems(items)) == 0
  {
    forall x | x in CompletedItems(items)
      ensures !x.plan.kind.Repair?
    {
      var i :| 0 <= i < |items| && items[i] == x;
      assert Linked(items[i].plan, FeatureIds(spec), Elements(Ids(items)), false);
    }
    NoRepairsCounted(CompletedItems(items));
  }

  lemma {:induction false} NoRepairsCounted(items: seq<WorkItem>)
    requires forall x :: x in items ==> !x.plan.kind.Repair?
    ensures RepairCount(items) == 0
    decreases |items|
  {
    if items != [] {
      assert items[|items| - 1] in items;
      NoRepairsCounted(items[..|items| - 1]);
    }
  }

  lemma {:induction false} ApplyKeepsInv(s: PlanState, spec: AppSpec, targets: Identity -> seq<string>, move: Move)
    requires Inv(s, spec, targets)
    ensures Inv(Apply(s, spec, targets, move), spec, targets)
  {
    if s.outcome == Running {
      match move
      case Migrate(request) => CompletedPartStandsAlone(spec, s.items, s.repair.Some?);
      case Adopt(proposed, design) => AdoptingKeepsInv(s, spec, targets, proposed, design);
      case Complete(id, summary, fullCheck) =>
        if MayComplete(s, id, fullCheck) {
          CompletingKeepsInv(s, spec, targets, id, summary, fullCheck);
        }
    }
  }

  lemma {:induction false} EmptyHasInv(spec: AppSpec, targets: Identity -> seq<string>)
    ensures Inv(EMPTY, spec, targets)
  {
    assert PlanGraph([]) == map[];
    if a :| Reaches(PlanGraph([]), a, a) {
      ReachesInGraph(PlanGraph([]), a, a);
    }
  }

  lemma {:induction false} RunKeepsInv(spec: AppSpec, targets: Identity -> seq<string>, moves: seq<Move>)
    ensures Inv(After(spec, targets, moves), spec, targets)
    decreases |moves|
  {
    if moves == [] {
      EmptyHasInv(spec, targets);
    } else {
      RunKeepsInv(spec, targets, moves[..|moves| - 1]);
      ApplyKeepsInv(After(spec, targets, moves[..|moves| - 1]), spec, targets, moves[|moves| - 1]);
    }
  }

  // ---------------------------------------------------------------- theorems about whole runs

  /**
   * No run of adoptions, completions and retirements ends up blocked for want of an executable
   * item: as long as something is unfinished some pending item has all its dependencies completed.
   */
  lemma {:induction false} NoRunStalls(spec: AppSpec, targets: Identity -> seq<string>, moves: seq<Move>)
    ensures var s := After(spec, targets, moves);
            s.outcome != Blocked && (Next(s.items).Some? || AllCompleted(s.items))
  {
    RunKeepsInv(spec, targets, moves);
    var s := After(spec, targets, moves);
    if !AllCompleted(s.items) {
      UnfinishedPlanHasNext(spec, s.items, s.repair.Some?);
    }
  }

  /**
   * When a run reports the build as generated, everything planned is completed, and the completed
   * work covers every approved feature, or every target of the frozen repair request.
   */
  lemma {:induction false} GeneratedMeansDelivered(spec: AppSpec, targets: Identity -> seq<string>, moves: seq<Move>)
    requires After(spec, targets, moves).outcome == Generated
    ensures var s := After(spec, targets, moves);
            && AllCompleted(s.items)
            && (s.repair.None? ==> Covers(spec, s.items))
            && (s.repair.Some? ==> forall t :: t in targets(s.repair.value) ==> TargetKept(s.items, t))
  {
    RunKeepsInv(spec, targets, moves);
  }

  lemma {:induction false} ApplyKeepsFinished(s: PlanState, spec: AppSpec, targets: Identity -> seq<string>, move: Move)
    requires Inv(s, spec, targets)
    ensures Finished(s.items) <= Finished(Apply(s, spec, targets, move).items)
  {
    if s.outcome == Running {
      match move
      case Migrate(_) => CompletedIdsOfPart(s.items);
      case Adopt(proposed, design) =>
        if MergeAll(proposed, s.items, s.repair.Some?).Some? {
          ReplanningConservesFinishedWork(proposed, s.items, s.repair.Some?);
        }
      case Complete(id, summary, fullCheck) =>
        if MayComplete(s, id, fullCheck) {
          CompletedIdsGrow(s.items, Next(s.items).value, summary);
        }
    }
  }

  /** Completed work, with its definition and summary, is never lost or rewritten by any later update. */
  lemma {:induction false} FinishedWorkStays(spec: AppSpec, targets: Identity -> seq<string>, moves: seq<Move>, i: nat)
    requires i <= |moves|
    ensures Finished(After(spec, targets, moves[..i]).items) <= Finished(After(spec, targets, moves).items)
    decreases |moves|
  {
    var n := |moves| - 1;
    if i == |moves| {
      assert moves[..i] == moves;
    } else {
      assert moves[..n][..i] == moves[..i];
      FinishedWorkStays(spec, targets, moves[..n], i);
      RunKeepsInv(spec, targets, moves[..n]);
      ApplyKeepsFinished(After(spec, targets, moves[..n]), spec, targets, moves[n]);
    }
  }

  /**
   * After any run, retiring the plan in favour of a repair request leaves completed work on which
   * the suggested repair plan can build: it has no repair items yet and stands alone.
   */
  lemma {:induction false} RetiredPlanCanBeRepaired(
      spec: AppSpec, targets: Identity -> seq<string>, moves: seq<Move>, modelTurn: nat, request: Identity)
    requires FeatureIds(spec) != {} && After(spec, targets, moves).repair.None?
    ensures var s := Migrated(After(spec, targets, moves), modelTurn, request);
            && StandsAlone(spec, s.items) && RepairCount(s.items) == 0
            && Finished(s.items) == Finished(After(spec, targets, moves).items)
  {
    RunKeepsInv(spec, targets, moves);
    var s := After(spec, targets, moves);
    CompletedPartStandsAlone(spec, s.items, false);
    CompletedIdsOfPart(s.items);
    NoRepairItems(spec, s.items);
  }
}
