/**
 * Replacing an accepted delivery plan, generation/delivery.py: finished items are carried over into
 * the new plan or the replacement is refused.
 */
module DeliveryRevisions {
  import opened Results
  import opened Graphs
  import opened AppSpecs
  import opened SystemDesigns
  import opened DeliveryPlans
  import opened DeliverySuggestions
  import opened RepairPlans

  // ---------------------------------------------------------------- replacing a plan

  ghost predicate FoundLast(ids: seq<string>, id: string, k: Option<nat>) {
    if k.None? then id !in ids
    else k.value < |ids| && ids[k.value] == id && forall j :: k.value < j < |ids| ==> ids[j] != id
  }

  function LastIndex(ids: seq<string>, id: string): (k: Option<nat>)
    ensures FoundLast(ids, id, k)
  {
    if ids == [] then None
    else
      var n := |ids| - 1;
      assert forall x :: x in ids <==> x in ids[..n] || x == ids[n];
      if ids[n] == id then Some(n) else LastIndex(ids[..n], id)
  }

  // What one previous item does to the new list; None when it was completed and got lost or changed.
  function Merge(items: seq<WorkItem>, earlier: WorkItem, repairing: bool): Option<seq<WorkItem>> {
    if !Completed(earlier) then Some(items)
    else
      var k := LastIndex(Ids(items), earlier.plan.id);
      if k.None? then (if repairing then Some([earlier] + items) else None)
      else if items[k.value].plan != earlier.plan then None
      else Some(items[k.value := earlier])
  }

  function MergeAll(proposed: seq<PlannedItem>, previous: seq<WorkItem>, repairing: bool): Option<seq<WorkItem>> {
    if previous == [] then Some(AllPending(proposed))
    else
      var n := |previous| - 1;
      var items := MergeAll(proposed, previous[..n], repairing);
      if items.None? then None else Merge(items.value, previous[n], repairing)
  }

  datatype ReplaceError = CompletedItemChanged(id: string) | NotValid(error: PlanError)

  /**
   * The new plan is the proposal with the completed items carried over; it is saved exactly when
   * no completed item is lost or changed and the result is valid.
   */
  method ReplaceDeliveryPlan(
      spec: AppSpec, proposed: seq<PlannedItem>, previous: seq<WorkItem>, design: Option<Design>, repair: Option<seq<string>>)
    returns (r: Result<seq<WorkItem>, ReplaceError>)
    ensures var merged := MergeAll(proposed, previous, repair.Some?);
            && (r.Ok? <==> merged.Some? && ValidPlan(spec, merged.value, design, repair))
            && (r.Ok? ==> r.value == merged.value)
            && (r.Err? && r.error.CompletedItemChanged? <==> merged.None?)
  {
    var items := AllPending(proposed);
    for i := 0 to |previous|
      invariant MergeAll(proposed, previous[..i], repair.Some?) == Some(items)
    {
      assert previous[..i + 1][..i] == previous[..i];
      var earlier := previous[i];
      if Completed(earlier) {
        var k := LastIndex(Ids(items), earlier.plan.id);
        if k.None? && repair.Some? {
          items := [earlier] + items;
        } else if k.None? || items[k.value].plan != earlier.plan {
          MergeFails(proposed, previous, i + 1, repair.Some?);
          return Err(CompletedItemChanged(earlier.plan.id));
        } else {
          items := items[k.value := items[k.value].(status := earlier.status, summary := earlier.summary)];
        }
      }
    }
    assert previous[..|previous|] == previous;
    var checked := ValidateDeliveryPlan(spec, items, design, repair);
    return if checked.Ok? then Ok(items) else Err(NotValid(checked.error));
  }

  lemma {:induction false} MergeFails(proposed: seq<PlannedItem>, previous: seq<WorkItem>, i: nat, repairing: bool)
    requires i <= |previous| && MergeAll(proposed, previous[..i], repairing).None?
    ensures MergeAll(proposed, previous, repairing).None?
    decreases |previous|
  {
    var n := |previous| - 1;
    if i == |previous| {
      assert previous[..i] == previous;
    } else {
      assert previous[..n][..i] == previous[..i];
      MergeFails(proposed, previous[..n], i, repairing);
    }
  }

  // Where an item of the new list comes from: the proposal, or finished work carried over.
  ghost predicate HasOrigin(previous: seq<WorkItem>, item: WorkItem) {
    item == Pending(item.plan) || FinishedIn(previous, item)
  }

  ghost predicate FinishedIn(items: seq<WorkItem>, item: WorkItem) {
    Completed(item) && item in items
  }

  ghost predicate FinishedPlan(items: seq<WorkItem>, plan: PlannedItem) {
    exists j :: 0 <= j < |items| && items[j].plan == plan && Completed(items[j])
  }

  ghost predicate Framed(proposed: seq<PlannedItem>, repairing: bool, items: seq<WorkItem>) {
    && |proposed| <= |items| && (!repairing ==> |items| == |proposed|)
    && (forall j :: 0 <= j < |proposed| ==> items[|items| - |proposed| + j].plan == proposed[j])
    && (forall j :: 0 <= j < |items| - |proposed| ==> Completed(items[j]))
  }

  // The proposal behind some carried-over items; whatever is finished is a finished previous item.
  ghost predicate Carried(proposed: seq<PlannedItem>, previous: seq<WorkItem>, repairing: bool, items: seq<WorkItem>) {
    && Framed(proposed, repairing, items)
    && (forall j :: 0 <= j < |items| ==> HasOrigin(previous, items[j]))
    && (forall h :: 0 <= h < |previous| && Completed(previous[h]) ==> FinishedPlan(items, previous[h].plan))
  }

  lemma {:induction false} CarriedSkip(
      proposed: seq<PlannedItem>, done: seq<WorkItem>, repairing: bool, items: seq<WorkItem>, earlier: WorkItem)
    requires Carried(proposed, done, repairing, items) && !Completed(earlier)
    ensures Carried(proposed, done + [earlier], repairing, items)
  {
    forall j | 0 <= j < |items|
      ensures HasOrigin(done + [earlier], items[j])
    {
      assert HasOrigin(done, items[j]);
    }
  }

  lemma {:induction false} CarriedInsert(
      proposed: seq<PlannedItem>, done: seq<WorkItem>, items: seq<WorkItem>, earlier: WorkItem)
    requires Carried(proposed, done, true, items) && Completed(earlier)
    ensures Carried(proposed, done + [earlier], true, [earlier] + items)
  {
    var after, previous := [earlier] + items, done + [earlier];
    forall j | 0 <= j < |after|
      ensures HasOrigin(previous, after[j])
    {
      if j > 0 {
        assert HasOrigin(done, items[j - 1]);
      } else {
        assert previous[|done|] == earlier;
      }
    }
    forall h | 0 <= h < |previous| && Completed(previous[h])
      ensures FinishedPlan(after, previous[h].plan)
    {
      if h < |done| {
        var j :| 0 <= j < |items| && items[j].plan == done[h].plan && Completed(items[j]);
        assert after[j + 1].plan == previous[h].plan && Completed(after[j + 1]);
      } else {
        assert after[0] == earlier;
      }
    }
  }

  lemma {:induction false} CarriedReplace(
      proposed: seq<PlannedItem>, done: seq<WorkItem>, repairing: bool, items: seq<WorkItem>, k: nat, earlier: WorkItem)
    requires Carried(proposed, done, repairing, items) && Completed(earlier)
    requires k < |items| && items[k].plan == earlier.plan
    ensures Carried(proposed, done + [earlier], repairing, items[k := earlier])
  {
    var after, previous := items[k := earlier], done + [earlier];
    forall j | 0 <= j < |after|
      ensures HasOrigin(previous, after[j])
    {
      if j != k {
        assert HasOrigin(done, items[j]);
      } else {
        assert previous[|done|] == earlier;
      }
    }
    forall h | 0 <= h < |previous| && Completed(previous[h])
      ensures FinishedPlan(after, previous[h].plan)
    {
      if h < |done| {
        var j :| 0 <= j < |items| && items[j].plan == done[h].plan && Completed(items[j]);
        assert after[j].plan == previous[h].plan && Completed(after[j]);
      } else {
        assert after[k] == earlier;
      }
    }
  }

  lemma {:induction false} MergeCarries(
      proposed: seq<PlannedItem>, done: seq<WorkItem>, repairing: bool, items: seq<WorkItem>, earlier: WorkItem)
    requires Carried(proposed, done, repairing, items) && Merge(items, earlier, repairing).Some?
    ensures Carried(proposed, done + [earlier], repairing, Merge(items, earlier, repairing).value)
  {
    if !Completed(earlier) {
      CarriedSkip(proposed, done, repairing, items, earlier);
    } else {
      var k := LastIndex(Ids(items), earlier.plan.id);
      if k.None? {
        CarriedInsert(proposed, done, items, earlier);
      } else {
        CarriedReplace(proposed, done, repairing, items, k.value, earlier);
      }
    }
  }

  lemma {:induction false} MergeAllCarries(proposed: seq<PlannedItem>, previous: seq<WorkItem>, repairing: bool)
    requires MergeAll(proposed, previous, repairing).Some?
    ensures Carried(proposed, previous, repairing, MergeAll(proposed, previous, repairing).value)
    decreases |previous|
  {
    if previous != [] {
      var n := |previous| - 1;
      MergeAllCarries(proposed, previous[..n], repairing);
      MergeCarries(proposed, previous[..n], repairing, MergeAll(proposed, previous[..n], repairing).value, previous[n]);
      assert previous == previous[..n] + [previous[n]];
    }
  }

  function Finished(items: seq<WorkItem>): set<WorkItem> {
    set x | x in items && Completed(x)
  }

  /**
   * Replanning conserves finished work.  The saved plan has exactly the previous completed items,
   * with their definitions and summaries, everything else is pending, and the proposal's own items
   * follow in their order; only a repair plan adds completed items the proposal left out.
   */
  lemma {:induction false} ReplanningConservesFinishedWork(proposed: seq<PlannedItem>, previous: seq<WorkItem>, repairing: bool)
    requires MergeAll(proposed, previous, repairing).Some? && Distinct(Ids(previous))
    ensures var items := MergeAll(proposed, previous, repairing).value;
            && Finished(items) == Finished(previous)
            && (forall x :: x in items && x !in Finished(previous) ==> x == Pending(x.plan) && x.plan in proposed)
            && |proposed| <= |items| && (!repairing ==> |items| == |proposed|)
            && (forall j :: 0 <= j < |proposed| ==> items[|items| - |proposed| + j].plan == proposed[j])
  {
    var items := MergeAll(proposed, previous, repairing).value;
    MergeAllCarries(proposed, previous, repairing);
    CarriedIsFinished(proposed, previous, repairing, items);
    forall x | x in items && x !in Finished(previous)
      ensures x == Pending(x.plan) && x.plan in proposed
    {
      OthersAreProposed(proposed, previous, repairing, items, x);
    }
  }

  lemma {:induction false} CarriedIsFinished(
      proposed: seq<PlannedItem>, previous: seq<WorkItem>, repairing: bool, items: seq<WorkItem>)
    requires Carried(proposed, previous, repairing, items) && Distinct(Ids(previous))
    ensures Finished(items) == Finished(previous)
  {
    forall x
      ensures x in Finished(items) <==> x in Finished(previous)
    {
      if x in Finished(items) {
        var j :| 0 <= j < |items| && items[j] == x;
        assert HasOrigin(previous, items[j]);
      }
      if x in Finished(previous) {
        FinishedSurvives(previous, items, x);
      }
    }
  }

  lemma {:induction false} OthersAreProposed(
      proposed: seq<PlannedItem>, previous: seq<WorkItem>, repairing: bool, items: seq<WorkItem>, x: WorkItem)
    requires Carried(proposed, previous, repairing, items) && x in items && x !in Finished(previous)
    ensures x == Pending(x.plan) && x.plan in proposed
  {
    var j :| 0 <= j < |items| && items[j] == x;
    assert HasOrigin(previous, items[j]);
    assert j >= |items| - |proposed|;
    assert proposed[j - (|items| - |proposed|)] == x.plan;
  }

  lemma {:induction false} FinishedSurvives(previous: seq<WorkItem>, items: seq<WorkItem>, x: WorkItem)
    requires x in previous && Completed(x) && Distinct(Ids(previous))
    requires forall j :: 0 <= j < |items| ==> HasOrigin(previous, items[j])
    requires forall h :: 0 <= h < |previous| && Completed(previous[h]) ==> FinishedPlan(items, previous[h].plan)
    ensures x in items
  {
    var h :| 0 <= h < |previous| && previous[h] == x;
    var j :| 0 <= j < |items| && items[j].plan == previous[h].plan && Completed(items[j]);
    assert HasOrigin(previous, items[j]);
    var h' :| 0 <= h' < |previous| && previous[h'] == items[j];
    assert Ids(previous)[h] == Ids(previous)[h'];
  }

  // The proposal keeps the previous item, or a repair plan that leaves it out takes it over.
  ghost predicate Kept(proposed: seq<PlannedItem>, earlier: WorkItem, repairing: bool) {
    Completed(earlier) ==>
      var ids := Ids(AllPending(proposed));
      var k := LastIndex(ids, earlier.plan.id);
      if k.None? then repairing else proposed[k.value] == earlier.plan
  }

  lemma {:induction false} FrontIsOld(
      proposed: seq<PlannedItem>, done: seq<WorkItem>, repairing: bool, items: seq<WorkItem>, id: string)
    requires Carried(proposed, done, repairing, items)
    requires forall h :: 0 <= h < |done| ==> done[h].plan.id != id
    ensures id !in Ids(items[..|items| - |proposed|])
  {
    forall j | 0 <= j < |items| - |proposed|
      ensures items[j].plan.id != id
    {
      assert HasOrigin(done, items[j]);
      var h :| 0 <= h < |done| && done[h] == items[j];
    }
  }

  // Which plan an id stands for while the completed items are carried over.
  lemma {:induction false} LookupCarried(
      proposed: seq<PlannedItem>, done: seq<WorkItem>, repairing: bool, items: seq<WorkItem>, id: string)
    requires Carried(proposed, done, repairing, items)
    requires forall h :: 0 <= h < |done| ==> done[h].plan.id != id
    ensures var k, k0 := LastIndex(Ids(items), id), LastIndex(Ids(AllPending(proposed)), id);
            && (k.None? <==> k0.None?)
            && (k.Some? ==> items[k.value].plan == proposed[k0.value])
  {
    FrontIsOld(proposed, done, repairing, items, id);
    SameFound(proposed, repairing, items, id, LastIndex(Ids(items), id), LastIndex(Ids(AllPending(proposed)), id));
  }

  lemma {:induction false} SameFound(
      proposed: seq<PlannedItem>, repairing: bool, items: seq<WorkItem>, id: string, k: Option<nat>, k0: Option<nat>)
    requires Framed(proposed, repairing, items) && id !in Ids(items[..|items| - |proposed|])
    requires FoundLast(Ids(items), id, k) && FoundLast(Ids(AllPending(proposed)), id, k0)
    ensures k.None? <==> k0.None?
    ensures k.Some? && k0.Some? ==> items[k.value].plan == proposed[k0.value]
  {
    var n, ids, all := |items| - |proposed|, Ids(AllPending(proposed)), Ids(items);
    forall j | 0 <= j < |proposed|
      ensures all[n + j] == ids[j]
    {
      assert items[n + j].plan == proposed[j];
    }
    if k0.Some? {
      assert all[n + k0.value] == id;
    }
    assert forall j :: 0 <= j < n ==> all[j] == Ids(items[..n])[j];
    if k.Some? {
      assert k.value >= n && ids[k.value - n] == id;
      assert k.value == n + k0.value;
    }
  }

  /** The replacement is refused for a completed item exactly when the proposal does not keep one. */
  lemma {:induction false} RefusedIffNotKept(proposed: seq<PlannedItem>, previous: seq<WorkItem>, repairing: bool)
    requires Distinct(Ids(previous))
    ensures MergeAll(proposed, previous, repairing).Some? <==>
            forall h :: 0 <= h < |previous| ==> Kept(proposed, previous[h], repairing)
    decreases |previous|
  {
    if previous != [] {
      var n := |previous| - 1;
      assert Ids(previous[..n]) == Ids(previous)[..n];
      RefusedIffNotKept(proposed, previous[..n], repairing);
      if MergeAll(proposed, previous[..n], repairing).Some? {
        MergeKeeps(proposed, previous, repairing);
      }
    }
  }

  lemma {:induction false} MergeKeeps(proposed: seq<PlannedItem>, previous: seq<WorkItem>, repairing: bool)
    requires Distinct(Ids(previous)) && previous != []
    requires MergeAll(proposed, previous[..|previous| - 1], repairing).Some?
    ensures Merge(MergeAll(proposed, previous[..|previous| - 1], repairing).value, previous[|previous| - 1], repairing).Some?
            <==> Kept(proposed, previous[|previous| - 1], repairing)
  {
    var n := |previous| - 1;
    var done, earlier := previous[..n], previous[n];
    MergeAllCarries(proposed, done, repairing);
    forall h | 0 <= h < n
      ensures done[h].plan.id != earlier.plan.id
    {
      assert Ids(previous)[h] != Ids(previous)[n];
    }
    LookupCarried(proposed, done, repairing, MergeAll(proposed, done, repairing).value, earlier.plan.id);
  }
}
