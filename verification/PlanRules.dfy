/**
 * The rules for a delivery plan in the plain terms of its items: paths from item to item along
 * dependsOn, statuses and kinds as they stand in the plan, limits as numbers.  The validator of
 * DeliveryPlans is proved to enforce exactly these rules and to report exactly their violations.
 */
module PlanRules {
  import opened Results
  import opened Graphs
  import opened AppSpecs
  import opened SystemDesigns
  import opened DeliveryPlans
  import opened Texts

  // A walk over the plan: each item names the next one among its dependencies.
  ghost predicate Leads(items: seq<WorkItem>, p: seq<int>) {
    && |p| >= 2 && (forall k :: 0 <= k < |p| ==> 0 <= p[k] < |items|)
    && forall k :: 0 <= k < |p| - 1 ==> items[p[k + 1]].plan.id in items[p[k]].plan.dependsOn
  }

  // Item i depends on item j, directly or over other items.
  ghost predicate RestsOn(items: seq<WorkItem>, i: int, j: int) {
    exists p :: Leads(items, p) && p[0] == i && p[|p| - 1] == j
  }

  // ---------------------------------------------------------------- the rules

  ghost predicate OwnIds(items: seq<WorkItem>) {
    forall i, j :: 0 <= i < j < |items| ==> items[i].plan.id != items[j].plan.id
  }

  ghost predicate IsFeature(spec: AppSpec, id: string) {
    exists k :: 0 <= k < |spec.features| && spec.features[k].id == id
  }

  ghost predicate IsOtherItem(items: seq<WorkItem>, i: int, id: string)
    requires 0 <= i < |items|
  {
    id != items[i].plan.id && exists j :: 0 <= j < |items| && items[j].plan.id == id
  }

  // The links of one item.
  ghost predicate LinksHold(spec: AppSpec, items: seq<WorkItem>, i: int, repairing: bool)
    requires 0 <= i < |items|
  {
    var item := items[i].plan;
    && (item.kind == Repair ==> repairing) && (item.requirementIds == [] ==> item.kind == Repair)
    && (forall x :: x in item.requirementIds ==> IsFeature(spec, x))
    && (forall x :: x in item.provisions ==> x in item.requirementIds)
    && (item.provisions != [] ==> item.acceptance != [] && item.deliverables != [])
    && (forall x :: x in item.dependsOn ==> IsOtherItem(items, i, x))
  }

  ghost predicate Unfinished(item: WorkItem) {
    item.plan.kind == Feature && item.status != "completed"
  }

  ghost predicate OnVisual(items: seq<WorkItem>, i: int) {
    exists j :: 0 <= j < |items| && items[j].plan.kind == VisualFoundation && RestsOn(items, i, j)
  }

  ghost predicate OnPrerequisite(items: seq<WorkItem>, i: int, prerequisite: string) {
    exists j :: 0 <= j < |items| && RestsOn(items, i, j) && Supplies(items[j].plan, prerequisite)
  }

  ghost predicate Built(items: seq<WorkItem>, feature: string) {
    exists i :: 0 <= i < |items| && items[i].plan.kind == Feature && feature in items[i].plan.requirementIds
  }

  ghost predicate Quotes(items: seq<WorkItem>, target: string) {
    exists j :: 0 <= j < |items| && items[j].plan.kind == Repair
      && Occurs(target, Normalize(Join(items[j].plan.acceptance)))
  }

  ghost function Repairs(items: seq<WorkItem>): set<int> {
    set i | 0 <= i < |items| && items[i].plan.kind == Repair
  }

  // An open item needs a requirement of the design first and rests on nothing that provides it.
  ghost predicate Misses(items: seq<WorkItem>, i: int, d: Dependency) {
    && 0 <= i < |items| && Unfinished(items[i]) && d.dependent in items[i].plan.requirementIds
    && !OnPrerequisite(items, i, d.prerequisite)
  }

  ghost predicate BuildsAll(spec: AppSpec, items: seq<WorkItem>, design: Option<Design>) {
    && (forall k :: 0 <= k < |spec.features| ==> Built(items, spec.features[k].id))
    && (exists j :: 0 <= j < |items| && items[j].plan.kind == VisualFoundation)
    && (forall i :: 0 <= i < |items| && Unfinished(items[i]) ==> OnVisual(items, i))
    && (design.Some? ==>
          SoundDesign(design.value, spec)
          && forall h, i :: 0 <= h < |design.value.dependencies| ==> !Misses(items, i, design.value.dependencies[h]))
  }

  ghost predicate RepairsAll(items: seq<WorkItem>, targets: seq<string>) {
    && 1 <= |Repairs(items)| <= 20
    && (forall i :: 0 <= i < |items| ==> items[i].status == "completed" || items[i].plan.kind == Repair)
    && (forall k :: 0 <= k < |targets| ==> Quotes(items, targets[k]))
  }

  ghost predicate KeepsRules(spec: AppSpec, items: seq<WorkItem>, design: Option<Design>, repair: Option<seq<string>>) {
    && spec.features != [] && 1 <= |items| <= 100 && OwnIds(items)
    && (forall i :: 0 <= i < |items| ==> LinksHold(spec, items, i, repair.Some?))
    && (forall i :: 0 <= i < |items| ==> !RestsOn(items, i, i))
    && if repair.Some? then RepairsAll(items, repair.value) else BuildsAll(spec, items, design)
  }

  // ---------------------------------------------------------------- walks and graph paths

  lemma {:induction false} IdsAreOwn(items: seq<WorkItem>)
    ensures Distinct(Ids(items)) <==> OwnIds(items)
  {
    if Distinct(Ids(items)) {
      forall i, j | 0 <= i < j < |items|
        ensures items[i].plan.id != items[j].plan.id
      {
        assert Ids(items)[i] != Ids(items)[j];
      }
    }
  }

  lemma {:induction false} PlaceOf(items: seq<WorkItem>, id: string) returns (i: nat)
    requires id in PlanGraph(items)
    ensures i < |items| && items[i].plan.id == id
  {
    i :| i < |Ids(items)| && Ids(items)[i] == id;
  }

  ghost predicate Traces(items: seq<WorkItem>, p: seq<int>, q: seq<string>) {
    |p| == |q| && forall k :: 0 <= k < |p| ==> 0 <= p[k] < |items| && items[p[k]].plan.id == q[k]
  }

  lemma {:induction false} WalkIsPath(items: seq<WorkItem>, p: seq<int>, q: seq<string>)
    requires Distinct(Ids(items)) && Traces(items, p, q) && |p| >= 2
    ensures Leads(items, p) <==> IsPath(PlanGraph(items), q)
  {
    forall k | 0 <= k < |p|
      ensures q[k] in PlanGraph(items) && PlanGraph(items)[q[k]] == Elements(items[p[k]].plan.dependsOn)
    {
      PlanGraphAt(items, p[k]);
    }
    if Leads(items, p) {
      forall k | 0 <= k < |q| - 1
        ensures q[k + 1] in PlanGraph(items)[q[k]]
      {
        assert items[p[k + 1]].plan.id in items[p[k]].plan.dependsOn;
      }
    }
    if IsPath(PlanGraph(items), q) {
      forall k | 0 <= k < |p| - 1
        ensures items[p[k + 1]].plan.id in items[p[k]].plan.dependsOn
      {
        assert q[k + 1] in PlanGraph(items)[q[k]];
      }
    }
  }

  lemma {:induction false} PathHasPlaces(items: seq<WorkItem>, q: seq<string>) returns (p: seq<int>)
    requires forall k :: 0 <= k < |q| ==> q[k] in PlanGraph(items)
    ensures Traces(items, p, q)
    decreases |q|
  {
    if q == [] {
      p := [];
    } else {
      var front := PathHasPlaces(items, q[..|q| - 1]);
      var i := PlaceOf(items, q[|q| - 1]);
      p := front + [i];
    }
  }

  lemma {:induction false} RestsReaches(items: seq<WorkItem>, i: nat, j: nat)
    requires Distinct(Ids(items)) && i < |items| && j < |items| && RestsOn(items, i, j)
    ensures Reaches(PlanGraph(items), items[i].plan.id, items[j].plan.id)
  {
    var p :| Leads(items, p) && p[0] == i && p[|p| - 1] == j;
    var q := seq(|p|, k requires 0 <= k < |p| => items[p[k]].plan.id);
    WalkIsPath(items, p, q);
    assert PathFrom(PlanGraph(items), items[i].plan.id, items[j].plan.id, q);
  }

  lemma {:induction false} ReachesRests(items: seq<WorkItem>, i: nat, j: nat)
    requires Distinct(Ids(items)) && i < |items| && j < |items|
    requires Reaches(PlanGraph(items), items[i].plan.id, items[j].plan.id)
    ensures RestsOn(items, i, j)
  {
    var q :| PathFrom(PlanGraph(items), items[i].plan.id, items[j].plan.id, q);
    var p := PathHasPlaces(items, q);
    WalkIsPath(items, p, q);
    SameIdSameItem(items, p[0], i);
    SameIdSameItem(items, p[|p| - 1], j);
    assert Leads(items, p) && p[0] == i && p[|p| - 1] == j;
  }

  lemma {:induction false} RestsIsReach(items: seq<WorkItem>, i: nat, j: nat)
    requires Distinct(Ids(items)) && i < |items| && j < |items|
    ensures RestsOn(items, i, j) <==> Reaches(PlanGraph(items), items[i].plan.id, items[j].plan.id)
  {
    if RestsOn(items, i, j) {
      RestsReaches(items, i, j);
    }
    if Reaches(PlanGraph(items), items[i].plan.id, items[j].plan.id) {
      ReachesRests(items, i, j);
    }
  }

  lemma {:induction false} CycleHasItem(items: seq<WorkItem>)
    requires Distinct(Ids(items))
    ensures Cyclic(PlanGraph(items)) <==> exists i :: 0 <= i < |items| && RestsOn(items, i, i)
  {
    var g := PlanGraph(items);
    if Cyclic(g) {
      var a :| Reaches(g, a, a);
      ReachesInGraph(g, a, a);
      var i := PlaceOf(items, a);
      RestsIsReach(items, i, i);
    }
    if i :| 0 <= i < |items| && RestsOn(items, i, i) {
      RestsIsReach(items, i, i);
    }
  }

  // ---------------------------------------------------------------- the two accounts agree

  lemma {:induction false} FeatureIff(spec: AppSpec, id: string)
    ensures id in FeatureIds(spec) <==> IsFeature(spec, id)
  {
    if IsFeature(spec, id) {
      var k :| 0 <= k < |spec.features| && spec.features[k].id == id;
      assert ItemIds(spec.features)[k] == id;
    }
    if id in FeatureIds(spec) {
      var k :| 0 <= k < |ItemIds(spec.features)| && ItemIds(spec.features)[k] == id;
    }
  }

  lemma {:induction false} NoFeaturesIff(spec: AppSpec)
    ensures FeatureIds(spec) == {} <==> spec.features == []
  {
    if spec.features != [] {
      FeatureIff(spec, spec.features[0].id);
    }
    if id :| id in FeatureIds(spec) {
      FeatureIff(spec, id);
    }
  }

  lemma {:induction false} OtherIff(items: seq<WorkItem>, i: nat, id: string)
    requires i < |items|
    ensures id in Elements(Ids(items)) - {items[i].plan.id} <==> IsOtherItem(items, i, id)
  {
    if id in Elements(Ids(items)) {
      var j :| 0 <= j < |Ids(items)| && Ids(items)[j] == id;
    }
    if j :| 0 <= j < |items| && items[j].plan.id == id {
      assert Ids(items)[j] == id;
    }
  }

  lemma {:induction false} LinkedIff(spec: AppSpec, items: seq<WorkItem>, i: nat, repairing: bool)
    requires i < |items|
    ensures Linked(items[i].plan, FeatureIds(spec), Elements(Ids(items)), repairing) <==> LinksHold(spec, items, i, repairing)
  {
    ApprovedIff(spec, items[i].plan.requirementIds);
    OthersIff(items, i);
    ProvisionsIff(items[i].plan);
  }

  lemma {:induction false} ApprovedIff(spec: AppSpec, ids: seq<string>)
    ensures Elements(ids) <= FeatureIds(spec) <==> forall x :: x in ids ==> IsFeature(spec, x)
  {
    forall x
      ensures x in FeatureIds(spec) <==> IsFeature(spec, x)
    {
      FeatureIff(spec, x);
    }
  }

  lemma {:induction false} OthersIff(items: seq<WorkItem>, i: nat)
    requires i < |items|
    ensures Elements(items[i].plan.dependsOn) <= Elements(Ids(items)) - {items[i].plan.id} <==>
            forall x :: x in items[i].plan.dependsOn ==> IsOtherItem(items, i, x)
  {
    forall x
      ensures x in Elements(Ids(items)) - {items[i].plan.id} <==> IsOtherItem(items, i, x)
    {
      OtherIff(items, i, x);
    }
  }

  lemma {:induction false} ProvisionsIff(item: PlannedItem)
    ensures Elements(item.provisions) <= Elements(item.requirementIds) <==>
            forall x :: x in item.provisions ==> x in item.requirementIds
  {
    assert forall x :: x in item.provisions <==> x in Elements(item.provisions);
  }

  lemma {:induction false} VisualIff(items: seq<WorkItem>, i: nat)
    requires Distinct(Ids(items)) && i < |items|
    ensures RestsOnVisual(items, PlanGraph(items), items[i]) <==> OnVisual(items, i)
  {
    if RestsOnVisual(items, PlanGraph(items), items[i]) {
      var j :| 0 <= j < |items| && items[j].plan.kind.VisualFoundation?
        && Reaches(PlanGraph(items), items[i].plan.id, items[j].plan.id);
      RestsIsReach(items, i, j);
    }
    if OnVisual(items, i) {
      var j :| 0 <= j < |items| && items[j].plan.kind == VisualFoundation && RestsOn(items, i, j);
      RestsIsReach(items, i, j);
    }
  }

  lemma {:induction false} PrerequisiteIff(items: seq<WorkItem>, i: nat, prerequisite: string)
    requires Distinct(Ids(items)) && i < |items|
    ensures RestsOnPrerequisite(items, PlanGraph(items), items[i], prerequisite) <==> OnPrerequisite(items, i, prerequisite)
  {
    if RestsOnPrerequisite(items, PlanGraph(items), items[i], prerequisite) {
      var j :| 0 <= j < |items| && Reaches(PlanGraph(items), items[i].plan.id, items[j].plan.id)
        && Supplies(items[j].plan, prerequisite);
      RestsIsReach(items, i, j);
    }
    if OnPrerequisite(items, i, prerequisite) {
      var j :| 0 <= j < |items| && RestsOn(items, i, j) && Supplies(items[j].plan, prerequisite);
      RestsIsReach(items, i, j);
    }
  }

  lemma {:induction false} RepairsCounted(items: seq<WorkItem>)
    ensures RepairCount(items) == |Repairs(items)|
    decreases |items|
  {
    if items != [] {
      var n := |items| - 1;
      var front := items[..n];
      RepairsCounted(front);
      assert Repairs(items) == Repairs(front) + if items[n].plan.kind == Repair then {n} else {};
    } else {
      assert Repairs(items) == {};
    }
  }

  lemma {:induction false} BuildsIff(spec: AppSpec, items: seq<WorkItem>, design: Option<Design>)
    requires Distinct(Ids(items))
    ensures ValidCoverage(spec, items, design) <==> BuildsAll(spec, items, design)
  {
    CoversIff(spec, items);
    forall i | 0 <= i < |items|
      ensures RestsOnVisual(items, PlanGraph(items), items[i]) <==> OnVisual(items, i)
    {
      VisualIff(items, i);
    }
    if design.Some? {
      NothingMissedIff(items, design.value.dependencies);
    }
  }

  lemma {:induction false} CoversIff(spec: AppSpec, items: seq<WorkItem>)
    ensures Covers(spec, items) <==> forall k :: 0 <= k < |spec.features| ==> Built(items, spec.features[k].id)
  {
    forall k | 0 <= k < |spec.features|
      ensures spec.features[k].id in FeatureIds(spec)
    {
      FeatureIff(spec, spec.features[k].id);
    }
    forall f
      ensures f in FeatureIds(spec) <==> IsFeature(spec, f)
      ensures CoveredBy(items, f) <==> Built(items, f)
    {
      FeatureIff(spec, f);
    }
  }

  // The validator's own account of a missing prerequisite.
  ghost predicate Lacks(items: seq<WorkItem>, i: int, d: Dependency) {
    && 0 <= i < |items| && OpenFeature(items[i]) && d.dependent in items[i].plan.requirementIds
    && !RestsOnPrerequisite(items, PlanGraph(items), items[i], d.prerequisite)
  }

  lemma {:induction false} LacksIff(items: seq<WorkItem>, i: int, d: Dependency)
    requires Distinct(Ids(items))
    ensures Lacks(items, i, d) <==> Misses(items, i, d)
  {
    if 0 <= i < |items| {
      PrerequisiteIff(items, i, d.prerequisite);
    }
  }

  lemma {:induction false} NothingMissedIff(items: seq<WorkItem>, dependencies: seq<Dependency>)
    requires Distinct(Ids(items))
    ensures (forall d, i :: d in dependencies && 0 <= i < |items| && OpenFeature(items[i])
                            && d.dependent in items[i].plan.requirementIds
                            ==> RestsOnPrerequisite(items, PlanGraph(items), items[i], d.prerequisite))
            <==> forall h, i :: 0 <= h < |dependencies| ==> !Misses(items, i, dependencies[h])
  {
    forall i, d: Dependency
      ensures Lacks(items, i, d) <==> Misses(items, i, d)
    {
      LacksIff(items, i, d);
    }
    if forall h, i :: 0 <= h < |dependencies| ==> !Misses(items, i, dependencies[h]) {
      forall d, i | d in dependencies && 0 <= i < |items| && OpenFeature(items[i]) && d.dependent in items[i].plan.requirementIds
        ensures RestsOnPrerequisite(items, PlanGraph(items), items[i], d.prerequisite)
      {
        var h :| 0 <= h < |dependencies| && dependencies[h] == d;
        assert !Misses(items, i, dependencies[h]);
        assert !Lacks(items, i, d);
      }
    } else {
      var h, i :| 0 <= h < |dependencies| && Misses(items, i, dependencies[h]);
      assert Lacks(items, i, dependencies[h]);
    }
  }

  lemma {:induction false} RepairsIff(items: seq<WorkItem>, targets: seq<string>)
    ensures ValidRepair(items, targets) <==> RepairsAll(items, targets)
  {
    RepairsCounted(items);
    forall t
      ensures TargetKept(items, t) <==> Quotes(items, t)
    {
      QuotesIff(items, t);
    }
  }

  lemma {:induction false} QuotesIff(items: seq<WorkItem>, target: string)
    ensures TargetKept(items, target) <==> Quotes(items, target)
  {
    if TargetKept(items, target) {
      var j :| 0 <= j < |items| && items[j].plan.kind.Repair? && Occurs(target, Observed(items[j].plan));
    }
    if Quotes(items, target) {
      var j :| 0 <= j < |items| && items[j].plan.kind == Repair && Occurs(target, Normalize(Join(items[j].plan.acceptance)));
      assert Occurs(target, Observed(items[j].plan));
    }
  }

  /**
   * The validator accepts exactly the plans that keep the rules: distinct ids, sound links, no item
   * that rests on itself; a repair plan with 1 to 20 repairs that quote every target, or else a plan
   * that builds every feature, each open one on a visual foundation and on an item that really
   * provides what the design wants first.
   */
  lemma {:induction false} ValidMeansRules(
      spec: AppSpec, items: seq<WorkItem>, design: Option<Design>, repair: Option<seq<string>>)
    ensures ValidPlan(spec, items, design, repair) <==> KeepsRules(spec, items, design, repair)
  {
    NoFeaturesIff(spec);
    IdsAreOwn(items);
    forall i | 0 <= i < |items|
      ensures Linked(items[i].plan, FeatureIds(spec), Elements(Ids(items)), repair.Some?) <==>
              LinksHold(spec, items, i, repair.Some?)
    {
      LinkedIff(spec, items, i, repair.Some?);
    }
    if Distinct(Ids(items)) {
      CycleHasItem(items);
      BuildsIff(spec, items, design);
    }
    if repair.Some? {
      RepairsIff(items, repair.value);
    }
  }

  // ---------------------------------------------------------------- what is reported

  ghost predicate OnOrBehindCycle(items: seq<WorkItem>, i: int) {
    RestsOn(items, i, i) || exists j :: 0 <= j < |items| && RestsOn(items, i, j) && RestsOn(items, j, j)
  }

  // What is wrong with the links of item i.
  ghost predicate LinkFinding(spec: AppSpec, items: seq<WorkItem>, i: int, repairing: bool, x: Issue)
    requires 0 <= i < |items|
  {
    var item := items[i].plan;
    match x
    case MissingRequirementLink(id) => id == item.id && item.requirementIds == [] && item.kind != Repair
    case UnexpectedRepairItem(id) => id == item.id && item.kind == Repair && !repairing
    case InvalidProvision(id, unlinked) =>
      && id == item.id && unlinked == (set r | r in item.provisions && r !in item.requirementIds)
      && (unlinked != {} || (item.provisions != [] && (item.acceptance == [] || item.deliverables == [])))
    case UnapprovedRequirement(id, actual) =>
      id == item.id && actual != {} && actual == set r | r in item.requirementIds && !IsFeature(spec, r)
    case InvalidDependencyTarget(id, actual) =>
      id == item.id && actual != {} && actual == set d | d in item.dependsOn && !IsOtherItem(items, i, d)
    case _ => false
  }

  // An item on a cycle or behind one, with those of its dependencies that are so too.
  ghost predicate CycleFinding(items: seq<WorkItem>, i: int, x: Issue)
    requires 0 <= i < |items|
  {
    && x.CyclicDependency? && x.id == items[i].plan.id && OnOrBehindCycle(items, i)
    && forall d :: d in x.unresolved <==>
                     d in items[i].plan.dependsOn
                     && exists j :: 0 <= j < |items| && items[j].plan.id == d && OnOrBehindCycle(items, j)
  }

  ghost predicate RepairFinding(items: seq<WorkItem>, targets: seq<string>, x: Issue) {
    match x
    case RepairItemCount(n) => n == |Repairs(items)| && (n == 0 || n > 20)
    case OutOfScopeRepairItems(ids) => ids != [] && ids == StrayIds(items)
    case MissingRepairTarget(t) => t in targets && !Quotes(items, t)
    case _ => false
  }

  // The ids of the open items that are no repairs, in plan order.
  ghost function StrayIds(items: seq<WorkItem>): seq<string> {
    if items == [] then []
    else (if items[0].status != "completed" && items[0].plan.kind != Repair then [items[0].plan.id] else []) + StrayIds(items[1..])
  }

  ghost predicate BuildFinding(spec: AppSpec, items: seq<WorkItem>, design: Option<Design>, x: Issue) {
    match x
    case MissingFeatureCoverage(missing) =>
      missing != {} && forall f :: f in missing <==> IsFeature(spec, f) && !Built(items, f)
    case MissingVisualFoundation => forall j :: 0 <= j < |items| ==> items[j].plan.kind != VisualFoundation
    case MissingVisualDependency(id) =>
      exists i :: 0 <= i < |items| && items[i].plan.id == id && Unfinished(items[i]) && !OnVisual(items, i)
    case MissingRequirementDependency(id, prerequisite, dependent) =>
      design.Some? && exists h, i :: MissingAt(items, design.value.dependencies, h, i, id, prerequisite, dependent)
    case _ => false
  }

  ghost predicate MissingAt(
      items: seq<WorkItem>, dependencies: seq<Dependency>, h: int, i: int, id: string, prerequisite: string, dependent: string)
  {
    && 0 <= h < |dependencies| && Misses(items, i, dependencies[h]) && items[i].plan.id == id
    && dependencies[h].prerequisite == prerequisite && dependencies[h].dependent == dependent
  }

  ghost predicate AllLinksHold(spec: AppSpec, items: seq<WorkItem>, repairing: bool) {
    forall i :: 0 <= i < |items| ==> LinksHold(spec, items, i, repairing)
  }

  ghost predicate AnyLinkFinding(spec: AppSpec, items: seq<WorkItem>, repairing: bool, x: Issue) {
    exists i :: 0 <= i < |items| && LinkFinding(spec, items, i, repairing, x)
  }

  ghost predicate AnyCycle(items: seq<WorkItem>) {
    exists i :: 0 <= i < |items| && RestsOn(items, i, i)
  }

  ghost predicate AnyCycleFinding(items: seq<WorkItem>, x: Issue) {
    exists i :: 0 <= i < |items| && CycleFinding(items, i, x)
  }

  // What the first stage that fails reports.
  ghost predicate Finding(spec: AppSpec, items: seq<WorkItem>, design: Option<Design>, repair: Option<seq<string>>, x: Issue) {
    if spec.features == [] then x == NoApprovedFeatures
    else if items == [] || |items| > 100 then x == ItemCount(|items|)
    else if !OwnIds(items) then
      x.DuplicateId? && exists i, j :: 0 <= i < j < |items| && items[i].plan.id == x.id && items[j].plan.id == x.id
    else if !AllLinksHold(spec, items, repair.Some?) then AnyLinkFinding(spec, items, repair.Some?, x)
    else if AnyCycle(items) then AnyCycleFinding(items, x)
    else if repair.Some? then RepairFinding(items, repair.value, x)
    else BuildFinding(spec, items, design, x)
  }

  lemma {:induction false} LinkFindingIff(spec: AppSpec, items: seq<WorkItem>, i: nat, repairing: bool, x: Issue)
    requires i < |items|
    ensures LinkViolation(items[i].plan, FeatureIds(spec), Elements(Ids(items)), repairing, x) <==>
            LinkFinding(spec, items, i, repairing, x)
  {
    var item, ids := items[i].plan, Elements(Ids(items));
    match x
    case InvalidProvision(_, _) =>
      assert Elements(item.provisions) - Elements(item.requirementIds) == set r | r in item.provisions && r !in item.requirementIds;
    case UnapprovedRequirement(_, _) =>
      forall r
        ensures r in FeatureIds(spec) <==> IsFeature(spec, r)
      {
        FeatureIff(spec, r);
      }
      assert Elements(item.requirementIds) - FeatureIds(spec) == set r | r in item.requirementIds && !IsFeature(spec, r);
    case InvalidDependencyTarget(_, _) => TargetsIff(items, i);
    case _ =>
  }

  lemma {:induction false} TargetsIff(items: seq<WorkItem>, i: nat)
    requires i < |items|
    ensures Elements(items[i].plan.dependsOn) - (Elements(Ids(items)) - {items[i].plan.id}) ==
            set d | d in items[i].plan.dependsOn && !IsOtherItem(items, i, d)
  {
    forall d
      ensures d in Elements(Ids(items)) - {items[i].plan.id} <==> IsOtherItem(items, i, d)
    {
      OtherIff(items, i, d);
    }
  }

  lemma {:induction false} BlockedIff(items: seq<WorkItem>, i: nat)
    requires Distinct(Ids(items)) && i < |items|
    ensures Blocked(PlanGraph(items), items[i].plan.id) <==> OnOrBehindCycle(items, i)
  {
    var g, a := PlanGraph(items), items[i].plan.id;
    RestsIsReach(items, i, i);
    if c :| Reaches(g, a, c) && Reaches(g, c, c) {
      ReachesInGraph(g, a, c);
      var j := PlaceOf(items, c);
      RestsIsReach(items, i, j);
      RestsIsReach(items, j, j);
    }
    if j :| 0 <= j < |items| && RestsOn(items, i, j) && RestsOn(items, j, j) {
      RestsIsReach(items, i, j);
      RestsIsReach(items, j, j);
    }
  }

  lemma {:induction false} CycleFindingIff(items: seq<WorkItem>, i: nat, x: Issue)
    requires Distinct(Ids(items)) && i < |items| && Closed(PlanGraph(items))
    ensures CycleViolation(PlanGraph(items), x) && x.id == items[i].plan.id <==> CycleFinding(items, i, x)
  {
    var g := PlanGraph(items);
    PlanGraphAt(items, i);
    BlockedIff(items, i);
    forall d | d in items[i].plan.dependsOn
      ensures Blocked(g, d) <==> exists j :: 0 <= j < |items| && items[j].plan.id == d && OnOrBehindCycle(items, j)
    {
      var j := PlaceOf(items, d);
      BlockedIff(items, j);
      forall k | 0 <= k < |items| && items[k].plan.id == d
        ensures k == j
      {
        SameIdSameItem(items, k, j);
      }
    }
    assert forall d :: d in g[items[i].plan.id] <==> d in items[i].plan.dependsOn;
  }

  lemma {:induction false} StraysIff(items: seq<WorkItem>)
    ensures OutOfScope(items) == StrayIds(items)
    decreases |items|
  {
    if items != [] {
      OutOfScopeCons(items);
      StraysIff(items[1..]);
      OneStray(items[0]);
    }
  }

  lemma {:induction false} OneStray(item: WorkItem)
    ensures OutOfScope([item]) == if item.status != "completed" && item.plan.kind != Repair then [item.plan.id] else []
  {
    assert [item][..0] == [];
  }

  lemma {:induction false} OutOfScopeCons(items: seq<WorkItem>)
    requires items != []
    ensures OutOfScope(items) == OutOfScope([items[0]]) + OutOfScope(items[1..])
    decreases |items|
  {
    if |items| > 1 {
      var n := |items| - 1;
      OutOfScopeCons(items[..n]);
      assert items[..n][1..] == items[1..][..n - 1];
    } else {
      assert items == [items[0]];
    }
  }

  lemma {:induction false} RepairFindingIff(items: seq<WorkItem>, targets: seq<string>, x: Issue)
    ensures RepairViolation(items, targets, x) <==> RepairFinding(items, targets, x)
  {
    RepairsCounted(items);
    StraysIff(items);
    if x.MissingRepairTarget? {
      QuotesIff(items, x.target);
    }
  }

  lemma {:induction false} UncoveredIff(spec: AppSpec, items: seq<WorkItem>, missing: set<string>)
    ensures missing == Uncovered(spec, items) <==> forall f :: f in missing <==> IsFeature(spec, f) && !Built(items, f)
  {
    forall f
      ensures f in Uncovered(spec, items) <==> IsFeature(spec, f) && !Built(items, f)
    {
      FeatureIff(spec, f);
      assert CoveredBy(items, f) <==> Built(items, f);
    }
  }

  lemma {:induction false} BuildFindingIff(spec: AppSpec, items: seq<WorkItem>, design: Option<Design>, x: Issue)
    requires Distinct(Ids(items))
    ensures CoverageViolation(spec, items, design, x) <==> BuildFinding(spec, items, design, x)
  {
    match x
    case MissingFeatureCoverage(missing) => UncoveredIff(spec, items, missing);
    case MissingVisualDependency(id) =>
      forall i | 0 <= i < |items|
        ensures UnvisualAt(items, i, id) <==> items[i].plan.id == id && Unfinished(items[i]) && !OnVisual(items, i)
      {
        VisualIff(items, i);
      }
    case MissingRequirementDependency(id, prerequisite, dependent) =>
      if design.Some? {
        MissingIff(items, design.value.dependencies, x);
      }
    case _ =>
  }

  lemma {:induction false} MissingIff(items: seq<WorkItem>, dependencies: seq<Dependency>, x: Issue)
    requires Distinct(Ids(items)) && x.MissingRequirementDependency?
    ensures UnmetDependency(items, dependencies, x) <==>
            exists h, i :: MissingAt(items, dependencies, h, i, x.id, x.prerequisite, x.dependent)
  {
    if UnmetDependency(items, dependencies, x) {
      var h :| 0 <= h < |dependencies| && UnmetAt(items, dependencies[h], x);
      var i :| 0 <= i < |items| && DependencyViolation(items, PlanGraph(items), dependencies[h], items[i], x);
      LacksIff(items, i, dependencies[h]);
      assert MissingAt(items, dependencies, h, i, x.id, x.prerequisite, x.dependent);
    }
    if h, i :| MissingAt(items, dependencies, h, i, x.id, x.prerequisite, x.dependent) {
      LacksIff(items, i, dependencies[h]);
      assert DependencyViolation(items, PlanGraph(items), dependencies[h], items[i], x);
      assert UnmetAt(items, dependencies[h], x);
    }
  }

  /** What the validator reports is exactly what the rules find, in the first stage that fails. */
  lemma {:induction false} ReportsMeanFindings(
      spec: AppSpec, items: seq<WorkItem>, design: Option<Design>, repair: Option<seq<string>>, x: Issue)
    ensures Violation(spec, items, design, repair, x) <==> Finding(spec, items, design, repair, x)
  {
    NoFeaturesIff(spec);
    IdsAreOwn(items);
    if spec.features == [] || items == [] || |items| > 100 || !OwnIds(items) {
      EarlyStagesIff(spec, items, design, repair, x);
    } else {
      LaterStagesIff(spec, items, design, repair, x);
    }
  }

  lemma {:induction false} EarlyStagesIff(
      spec: AppSpec, items: seq<WorkItem>, design: Option<Design>, repair: Option<seq<string>>, x: Issue)
    requires (FeatureIds(spec) == {} <==> spec.features == []) && (Distinct(Ids(items)) <==> OwnIds(items))
    requires spec.features == [] || items == [] || |items| > 100 || !OwnIds(items)
    ensures Violation(spec, items, design, repair, x) <==> Finding(spec, items, design, repair, x)
  {
  }

  lemma {:induction false} LaterStagesIff(
      spec: AppSpec, items: seq<WorkItem>, design: Option<Design>, repair: Option<seq<string>>, x: Issue)
    requires spec.features != [] && FeatureIds(spec) != {} && 1 <= |items| <= 100 && OwnIds(items) && Distinct(Ids(items))
    ensures Violation(spec, items, design, repair, x) <==> Finding(spec, items, design, repair, x)
  {
    LinkStageIff(spec, items, repair.Some?, x);
    if AllLinked(spec, items, repair.Some?) {
      CycleStageIff(spec, items, repair.Some?, x);
      if !Cyclic(PlanGraph(items)) {
        LastStageIff(spec, items, design, repair, x);
      }
    }
  }

  lemma {:induction false} LastStageIff(
      spec: AppSpec, items: seq<WorkItem>, design: Option<Design>, repair: Option<seq<string>>, x: Issue)
    requires Distinct(Ids(items))
    ensures repair.Some? ==> (RepairViolation(items, repair.value, x) <==> RepairFinding(items, repair.value, x))
    ensures CoverageViolation(spec, items, design, x) <==> BuildFinding(spec, items, design, x)
  {
    BuildFindingIff(spec, items, design, x);
    if repair.Some? {
      RepairFindingIff(items, repair.value, x);
    }
  }

  lemma {:induction false} LinkStageIff(spec: AppSpec, items: seq<WorkItem>, repairing: bool, x: Issue)
    ensures AllLinked(spec, items, repairing) <==> AllLinksHold(spec, items, repairing)
    ensures AnyLinkViolation(spec, items, repairing, x) <==> AnyLinkFinding(spec, items, repairing, x)
  {
    forall i | 0 <= i < |items|
      ensures Linked(items[i].plan, FeatureIds(spec), Elements(Ids(items)), repairing) <==> LinksHold(spec, items, i, repairing)
      ensures LinkViolation(items[i].plan, FeatureIds(spec), Elements(Ids(items)), repairing, x) <==>
              LinkFinding(spec, items, i, repairing, x)
    {
      LinkedIff(spec, items, i, repairing);
      LinkFindingIff(spec, items, i, repairing, x);
    }
  }

  lemma {:induction false} CycleStageIff(spec: AppSpec, items: seq<WorkItem>, repairing: bool, x: Issue)
    requires Distinct(Ids(items)) && AllLinked(spec, items, repairing)
    ensures Cyclic(PlanGraph(items)) <==> AnyCycle(items)
    ensures CycleViolation(PlanGraph(items), x) <==> AnyCycleFinding(items, x)
  {
    CycleHasItem(items);
    PlanGraphClosed(spec, items, repairing);
    forall i | 0 <= i < |items|
      ensures CycleViolation(PlanGraph(items), x) && x.id == items[i].plan.id <==> CycleFinding(items, i, x)
    {
      CycleFindingIff(items, i, x);
    }
    if CycleViolation(PlanGraph(items), x) {
      var i := PlaceOf(items, x.id);
      assert CycleFinding(items, i, x);
    }
  }
}
