/**
 * What the updates of an engineering plan do to its rows, in plain terms: which item is next, when a
 * check may complete it, and what stays when a plan is adopted or retired.
 */
module PlanProgress {
  import opened Results
  import opened AppSpecs
  import opened DeliveryPlans
  import opened DeliverySuggestions
  import opened DeliveryRevisions
  import opened PlanRuns

  // Pending, and each of its dependencies is the id of a completed item.
  ghost predicate Workable(items: seq<WorkItem>, i: int) {
    && 0 <= i < |items| && items[i].status == "pending"
    && forall d :: d in items[i].plan.dependsOn ==> DoneUnder(items, d)
  }

  ghost predicate DoneUnder(items: seq<WorkItem>, id: string) {
    exists j :: 0 <= j < |items| && items[j].plan.id == id && items[j].status == "completed"
  }

  // The first workable item.
  ghost predicate IsNext(items: seq<WorkItem>, i: int) {
    Workable(items, i) && forall j :: 0 <= j < i ==> !Workable(items, j)
  }

  // The item provides something for later ones, or nothing else is left to do.
  ghost predicate WantsFullCheck(items: seq<WorkItem>, i: int)
    requires 0 <= i < |items|
  {
    || items[i].plan.provisions != []
    || forall j :: 0 <= j < |items| && items[j].plan.id != items[i].plan.id ==> items[j].status == "completed"
  }

  ghost predicate AllDone(items: seq<WorkItem>) {
    forall j :: 0 <= j < |items| ==> items[j].status == "completed"
  }

  // The id of the next item, or nothing.
  ghost predicate Points(items: seq<WorkItem>, current: Option<string>) {
    if current.Some? then exists i :: IsNext(items, i) && items[i].plan.id == current.value
    else forall i :: !Workable(items, i)
  }

  // The completed items, in their order.
  ghost function DoneItems(items: seq<WorkItem>): seq<WorkItem> {
    if items == [] then [] else (if items[0].status == "completed" then [items[0]] else []) + DoneItems(items[1..])
  }

  // ---------------------------------------------------------------- the lookups

  lemma {:induction false} DoneIff(items: seq<WorkItem>, id: string)
    ensures id in CompletedIds(items) <==> DoneUnder(items, id)
  {
    if id in CompletedIds(items) {
      var x :| x in Finished(items) && x.plan.id == id;
      var j :| 0 <= j < |items| && items[j] == x;
    }
    if j :| 0 <= j < |items| && items[j].plan.id == id && items[j].status == "completed" {
      assert items[j] in Finished(items);
    }
  }

  lemma {:induction false} WorkableIff(items: seq<WorkItem>, i: nat)
    requires i < |items|
    ensures Runnable(items, i) <==> Workable(items, i)
  {
    forall d
      ensures d in CompletedIds(items) <==> DoneUnder(items, d)
    {
      DoneIff(items, d);
    }
  }

  lemma {:induction false} FirstFrom(items: seq<WorkItem>, from: nat)
    requires from <= |items|
    ensures var k := NextFrom(items, from);
            && (k.Some? ==> forall j :: from <= j < k.value ==> !Runnable(items, j))
            && (k.None? ==> forall j :: from <= j < |items| ==> !Runnable(items, j))
    decreases |items| - from
  {
    if from < |items| && !Runnable(items, from) {
      FirstFrom(items, from + 1);
    }
  }

  lemma {:induction false} NextIff(items: seq<WorkItem>)
    ensures Next(items).Some? ==> IsNext(items, Next(items).value)
    ensures Next(items).None? ==> forall i :: !Workable(items, i)
    ensures forall i :: IsNext(items, i) ==> Next(items) == Some(i)
  {
    FirstFrom(items, 0);
    forall i | 0 <= i < |items|
      ensures Runnable(items, i) <==> Workable(items, i)
    {
      WorkableIff(items, i);
    }
  }

  lemma {:induction false} NextIdPoints(items: seq<WorkItem>)
    ensures Points(items, NextId(items))
  {
    NextIff(items);
  }

  lemma {:induction false} DoneItemsSnoc(items: seq<WorkItem>, x: WorkItem)
    ensures DoneItems(items + [x]) == DoneItems(items) + if x.status == "completed" then [x] else []
  {
    if items == [] {
      assert [x][1..] == [] && [] + [x] == [x];
    } else {
      DoneItemsSnoc(items[1..], x);
      assert (items + [x])[1..] == items[1..] + [x];
    }
  }

  lemma {:induction false} CompletedAreDone(items: seq<WorkItem>)
    ensures CompletedItems(items) == DoneItems(items)
    decreases |items|
  {
    if items != [] {
      var n := |items| - 1;
      CompletedAreDone(items[..n]);
      DoneItemsSnoc(items[..n], items[n]);
      assert items == items[..n] + [items[n]];
    }
  }

  // ---------------------------------------------------------------- the updates

  /**
   * A passed check completes an item exactly when a plan is accepted and the item is the next one, and
   * an item that provides something or is the last one only after the full check.
   */
  lemma {:induction false} MayCompleteMeans(s: PlanState, id: string, fullCheck: bool)
    ensures MayComplete(s, id, fullCheck) <==>
            !s.needsPlan && exists i :: IsNext(s.items, i) && s.items[i].plan.id == id && (WantsFullCheck(s.items, i) ==> fullCheck)
  {
    NextIff(s.items);
  }

  /**
   * Completing it changes status and summary of that item alone; the next one becomes current, and when
   * there is none the run has generated everything or is blocked.
   */
  lemma {:induction false} CompletedNowMeans(s: PlanState, summary: string, i: nat)
    requires IsNext(s.items, i)
    ensures Next(s.items) == Some(i)
    ensures var t := CompletedNow(s, summary);
            && |t.items| == |s.items| && (forall j :: 0 <= j < |s.items| && j != i ==> t.items[j] == s.items[j])
            && t.items[i] == WorkItem(s.items[i].plan, "completed", Some(summary))
            && Points(t.items, t.current) && t.needsPlan == s.needsPlan && t.repair == s.repair && t.history == s.history
            && t.outcome == if t.current.Some? then s.outcome else if AllDone(t.items) then Generated else Blocked
  {
    NextIff(s.items);
    NextIff(CompletedNow(s, summary).items);
  }

  /** An adopted plan replaces the items, is recorded, and its next item becomes current. */
  lemma {:induction false} AdoptedMeans(s: PlanState, modelTurn: nat, items: seq<WorkItem>)
    ensures var t := Adopted(s, modelTurn, items);
            && t.items == items && !t.needsPlan && Points(items, t.current)
            && t.history == s.history + [PlanVersion(items, modelTurn, false)]
            && t.repair == s.repair && t.outcome == s.outcome
  {
    NextIdPoints(items);
  }

  /** A retired plan keeps its completed items, is recorded if it had any item, and wants a new plan. */
  lemma {:induction false} MigratedMeans(s: PlanState, modelTurn: nat, request: Identity)
    ensures var t := Migrated(s, modelTurn, request);
            && t.items == DoneItems(s.items) && t.current == None && t.needsPlan && t.repair == Some(request)
            && t.history == s.history + (if s.items == [] then [] else [PlanVersion(s.items, modelTurn, true)])
            && t.outcome == s.outcome
  {
    CompletedAreDone(s.items);
    assert s.history + [] == s.history;
  }

  /** A new item starts as pending work without a summary. */
  lemma {:induction false} PendingMeans(proposed: seq<PlannedItem>)
    ensures |AllPending(proposed)| == |proposed|
    ensures forall i :: 0 <= i < |proposed| ==> AllPending(proposed)[i] == WorkItem(proposed[i], "pending", None)
  {
  }
}
