/**
 * Engineering dependency plans and their validator, generation/delivery.py.
 *
 * ValidPlan says what a plan must satisfy, with ancestors as graph reachability.  The validator
 * computes ancestors with its own worklist and reports issues in stages; it is proved to accept
 * exactly the valid plans and to report exactly the violations of the first stage that fails.
 */
module DeliveryPlans {
  import opened Results
  import opened Graphs
  import opened AppSpecs
  import opened SystemDesigns
  import opened Texts

  datatype Kind = Foundation | VisualFoundation | Feature | Repair

  datatype PlannedItem = PlannedItem(
    id: string,
    requirementIds: seq<string>,
    provisions: seq<string>,
    title: string,
    kind: Kind,
    dependsOn: seq<string>,
    rationale: string,
    acceptance: seq<string>,
    deliverables: seq<string>)

  datatype WorkItem = WorkItem(plan: PlannedItem, status: string, summary: Option<string>)

  const MAX_ITEMS: nat := 100
  const MAX_REPAIR_ITEMS: nat := 20

  function Ids(items: seq<WorkItem>): (ids: seq<string>)
    ensures |ids| == |items| && forall i :: 0 <= i < |items| ==> ids[i] == items[i].plan.id
  {
    seq(|items|, i requires 0 <= i < |items| => items[i].plan.id)
  }

  predicate Completed(item: WorkItem) {
    item.status == "completed"
  }

  // ---------------------------------------------------------------- what a valid plan is

  // The dependency graph of a plan; of two items with one id the later counts.
  function PlanGraph(items: seq<WorkItem>): (g: Graph)
    ensures g.Keys == Elements(Ids(items))
  {
    if items == [] then map[]
    else
      var last := items[|items| - 1].plan;
      assert Ids(items) == Ids(items[..|items| - 1]) + [last.id];
      PlanGraph(items[..|items| - 1])[last.id := Elements(last.dependsOn)]
  }

  predicate Linked(item: PlannedItem, features: set<string>, ids: set<string>, repairing: bool) {
    && (item.requirementIds != [] || item.kind.Repair?)
    && (item.kind.Repair? ==> repairing)
    && Elements(item.provisions) <= Elements(item.requirementIds)
    && (item.provisions != [] ==> item.acceptance != [] && item.deliverables != [])
    && Elements(item.requirementIds) <= features
    && Elements(item.dependsOn) <= ids - {item.id}
  }

  // The requirements that completing the item makes available to its dependents.
  function Provided(item: PlannedItem): set<string> {
    if item.provisions != [] then Elements(item.provisions)
    else if item.kind.VisualFoundation? then {}
    else Elements(item.requirementIds)
  }

  // The same from the outside: what the item declares; if it declares nothing, what it is linked to,
  // but the links of a visual foundation alone provide nothing.
  ghost predicate Supplies(item: PlannedItem, requirement: string) {
    || requirement in item.provisions
    || (item.provisions == [] && item.kind != VisualFoundation && requirement in item.requirementIds)
  }

  lemma {:induction false} SuppliesProvided(item: PlannedItem, requirement: string)
    ensures Supplies(item, requirement) <==> requirement in Provided(item)
  {
  }

  function Observed(item: PlannedItem): string {
    Normalize(Join(item.acceptance))
  }

  predicate OpenFeature(item: WorkItem) {
    item.plan.kind.Feature? && !Completed(item)
  }

  ghost predicate Covers(spec: AppSpec, items: seq<WorkItem>) {
    forall f :: f in FeatureIds(spec) ==> CoveredBy(items, f)
  }

  ghost predicate RestsOnVisual(items: seq<WorkItem>, g: Graph, item: WorkItem) {
    exists j :: 0 <= j < |items| && items[j].plan.kind.VisualFoundation? && Reaches(g, item.plan.id, items[j].plan.id)
  }

  ghost predicate RestsOnPrerequisite(items: seq<WorkItem>, g: Graph, item: WorkItem, prerequisite: string) {
    exists j :: 0 <= j < |items| && Reaches(g, item.plan.id, items[j].plan.id) && Supplies(items[j].plan, prerequisite)
  }

  ghost predicate ValidCoverage(spec: AppSpec, items: seq<WorkItem>, design: Option<Design>) {
    var g := PlanGraph(items);
    && Covers(spec, items)
    && (exists j :: 0 <= j < |items| && items[j].plan.kind.VisualFoundation?)
    && (forall i :: 0 <= i < |items| && OpenFeature(items[i]) ==> RestsOnVisual(items, g, items[i]))
    && (design.Some? ==>
          && SoundDesign(design.value, spec)
          && forall d, i :: d in design.value.dependencies && 0 <= i < |items| && OpenFeature(items[i])
                            && d.dependent in items[i].plan.requirementIds
                            ==> RestsOnPrerequisite(items, g, items[i], d.prerequisite))
  }

  function RepairCount(items: seq<WorkItem>): nat {
    if items == [] then 0
    else RepairCount(items[..|items| - 1]) + if items[|items| - 1].plan.kind.Repair? then 1 else 0
  }

  ghost predicate TargetKept(items: seq<WorkItem>, target: string) {
    exists j :: 0 <= j < |items| && items[j].plan.kind.Repair? && Occurs(target, Observed(items[j].plan))
  }

  ghost predicate ValidRepair(items: seq<WorkItem>, targets: seq<string>) {
    && 1 <= RepairCount(items) <= MAX_REPAIR_ITEMS
    && (forall i :: 0 <= i < |items| ==> Completed(items[i]) || items[i].plan.kind.Repair?)
    && (forall t :: t in targets ==> TargetKept(items, t))
  }

  // `repair` holds the targets of a frozen repair request, when the plan serves one.
  ghost predicate ValidPlan(spec: AppSpec, items: seq<WorkItem>, design: Option<Design>, repair: Option<seq<string>>) {
    && FeatureIds(spec) != {}
    && 1 <= |items| <= MAX_ITEMS
    && Distinct(Ids(items))
    && (forall i :: 0 <= i < |items| ==> Linked(items[i].plan, FeatureIds(spec), Elements(Ids(items)), repair.Some?))
    && !Cyclic(PlanGraph(items))
    && if repair.Some? then ValidRepair(items, repair.value) else ValidCoverage(spec, items, design)
  }

  // ---------------------------------------------------------------- what the validator reports

  datatype Issue =
    | NoApprovedFeatures
    | ItemCount(count: nat)
    | DuplicateId(id: string)
    | MissingRequirementLink(id: string)
    | UnexpectedRepairItem(id: string)
    | InvalidProvision(id: string, unlinked: set<string>)
    | UnapprovedRequirement(id: string, actual: set<string>)
    | InvalidDependencyTarget(id: string, actual: set<string>)
    | CyclicDependency(id: string, unresolved: set<string>)
    | RepairItemCount(count: nat)
    | OutOfScopeRepairItems(ids: seq<string>)
    | MissingRepairTarget(target: string)
    | MissingFeatureCoverage(missing: set<string>)
    | MissingVisualFoundation
    | MissingVisualDependency(id: string)
    | MissingRequirementDependency(id: string, prerequisite: string, dependent: string)

  datatype PlanError = InvalidPlan(issues: seq<Issue>) | InvalidDesign(error: DesignError)

  function IssueIf(wrong: bool, issue: Issue): seq<Issue> {
    if wrong then [issue] else []
  }

  // What is wrong with one item's links, in the order it is looked for.
  function LinkIssues(item: PlannedItem, features: set<string>, ids: set<string>, repairing: bool): (issues: seq<Issue>)
  {
    var unknown := Elements(item.requirementIds) - features;
    var invalid := Elements(item.dependsOn) - (ids - {item.id});
    var unlinked := Elements(item.provisions) - Elements(item.requirementIds);
    var unbacked := item.provisions != [] && (item.acceptance == [] || item.deliverables == []);
    IssueIf(item.requirementIds == [] && !item.kind.Repair?, MissingRequirementLink(item.id)) +
    IssueIf(!repairing && item.kind.Repair?, UnexpectedRepairItem(item.id)) +
    IssueIf(unlinked != {} || unbacked, InvalidProvision(item.id, unlinked)) +
    IssueIf(unknown != {}, UnapprovedRequirement(item.id, unknown)) +
    IssueIf(invalid != {}, InvalidDependencyTarget(item.id, invalid))
  }

  lemma {:induction false} LinkIssuesExact(item: PlannedItem, features: set<string>, ids: set<string>, repairing: bool)
    ensures LinkIssues(item, features, ids, repairing) == [] <==> Linked(item, features, ids, repairing)
    ensures forall x :: x in LinkIssues(item, features, ids, repairing) <==> LinkViolation(item, features, ids, repairing, x)
  {
    NothingOutside(Elements(item.requirementIds), features);
    NothingOutside(Elements(item.dependsOn), ids - {item.id});
    NothingOutside(Elements(item.provisions), Elements(item.requirementIds));
    forall x
      ensures x in LinkIssues(item, features, ids, repairing) <==> LinkViolation(item, features, ids, repairing, x)
    {
      LinkIssueExact(item, features, ids, repairing, x);
    }
  }

  lemma {:induction false} LinkIssueExact(item: PlannedItem, features: set<string>, ids: set<string>, repairing: bool, x: Issue)
    ensures x in LinkIssues(item, features, ids, repairing) <==> LinkViolation(item, features, ids, repairing, x)
  {
    var unknown := Elements(item.requirementIds) - features;
    var invalid := Elements(item.dependsOn) - (ids - {item.id});
    var unlinked := Elements(item.provisions) - Elements(item.requirementIds);
    var unbacked := item.provisions != [] && (item.acceptance == [] || item.deliverables == []);
    InIssues(item.requirementIds == [] && !item.kind.Repair?, MissingRequirementLink(item.id), x);
    InIssues(!repairing && item.kind.Repair?, UnexpectedRepairItem(item.id), x);
    InIssues(unlinked != {} || unbacked, InvalidProvision(item.id, unlinked), x);
    InIssues(unknown != {}, UnapprovedRequirement(item.id, unknown), x);
    InIssues(invalid != {}, InvalidDependencyTarget(item.id, invalid), x);
  }

  lemma {:induction false} InIssues(wrong: bool, issue: Issue, x: Issue)
    ensures x in IssueIf(wrong, issue) <==> wrong && x == issue
  {
  }

  lemma {:induction false} NothingOutside<T>(a: set<T>, b: set<T>)
    ensures a - b == {} <==> a <= b
  {
    assert forall x :: x in a ==> x in b || x in a - b;
  }

  ghost predicate LinkViolation(item: PlannedItem, features: set<string>, ids: set<string>, repairing: bool, x: Issue) {
    match x
    case MissingRequirementLink(id) => id == item.id && item.requirementIds == [] && !item.kind.Repair?
    case UnexpectedRepairItem(id) => id == item.id && item.kind.Repair? && !repairing
    case InvalidProvision(id, unlinked) =>
      && id == item.id && unlinked == Elements(item.provisions) - Elements(item.requirementIds)
      && (unlinked != {} || (item.provisions != [] && (item.acceptance == [] || item.deliverables == [])))
    case UnapprovedRequirement(id, actual) =>
      id == item.id && actual == Elements(item.requirementIds) - features && actual != {}
    case InvalidDependencyTarget(id, actual) =>
      id == item.id && actual == Elements(item.dependsOn) - (ids - {item.id}) && actual != {}
    case _ => false
  }

  ghost predicate AnyLinkViolation(spec: AppSpec, items: seq<WorkItem>, repairing: bool, x: Issue) {
    exists i :: 0 <= i < |items| && LinkViolation(items[i].plan, FeatureIds(spec), Elements(Ids(items)), repairing, x)
  }

  ghost predicate AllLinked(spec: AppSpec, items: seq<WorkItem>, repairing: bool) {
    forall i :: 0 <= i < |items| ==> Linked(items[i].plan, FeatureIds(spec), Elements(Ids(items)), repairing)
  }

  // A node is reported when it is on a cycle or behind one, with the prerequisites still blocked.
  ghost predicate CycleViolation(g: Graph, x: Issue) {
    && x.CyclicDependency? && x.id in g && Blocked(g, x.id)
    && x.unresolved == set d | d in g[x.id] && Blocked(g, d)
  }

  ghost predicate RepairViolation(items: seq<WorkItem>, targets: seq<string>, x: Issue) {
    match x
    case RepairItemCount(n) => n == RepairCount(items) && !(1 <= n <= MAX_REPAIR_ITEMS)
    case OutOfScopeRepairItems(ids) => ids == OutOfScope(items) && ids != []
    case MissingRepairTarget(t) => t in targets && !TargetKept(items, t)
    case _ => false
  }

  function OutOfScope(items: seq<WorkItem>): (ids: seq<string>)
    ensures ids == [] <==> forall i :: 0 <= i < |items| ==> Completed(items[i]) || items[i].plan.kind.Repair?
  {
    if items == [] then []
    else
      var last := items[|items| - 1];
      OutOfScope(items[..|items| - 1]) + if !Completed(last) && !last.plan.kind.Repair? then [last.plan.id] else []
  }

  function Uncovered(spec: AppSpec, items: seq<WorkItem>): (missing: set<string>)
    ensures missing == {} <==> Covers(spec, items)
  {
    var missing := set f | f in FeatureIds(spec) && !CoveredBy(items, f);
    assert forall f :: f in FeatureIds(spec) ==> f in missing || CoveredBy(items, f);
    missing
  }

  predicate CoveredBy(items: seq<WorkItem>, f: string) {
    exists i :: 0 <= i < |items| && items[i].plan.kind.Feature? && f in items[i].plan.requirementIds
  }

  ghost predicate CoverageViolation(spec: AppSpec, items: seq<WorkItem>, design: Option<Design>, x: Issue) {
    || (x == MissingFeatureCoverage(Uncovered(spec, items)) && Uncovered(spec, items) != {})
    || (x == MissingVisualFoundation && VisualIds(items) == {})
    || VisualViolation(items, x)
    || (design.Some? && UnmetDependency(items, design.value.dependencies, x))
  }

  function VisualIds(items: seq<WorkItem>): (ids: set<string>)
    ensures ids == {} <==> !exists j :: 0 <= j < |items| && items[j].plan.kind.VisualFoundation?
  {
    var ids := set j | 0 <= j < |items| && items[j].plan.kind.VisualFoundation? :: items[j].plan.id;
    assert forall j :: 0 <= j < |items| && items[j].plan.kind.VisualFoundation? ==> items[j].plan.id in ids;
    ids
  }

  // An unfinished feature item that does not rest on the visual foundation.
  ghost predicate VisualViolation(items: seq<WorkItem>, x: Issue) {
    x.MissingVisualDependency? && exists i :: 0 <= i < |items| && UnvisualAt(items, i, x.id)
  }

  ghost predicate UnvisualAt(items: seq<WorkItem>, i: nat, id: string)
    requires i < |items|
  {
    items[i].plan.id == id && OpenFeature(items[i]) && !RestsOnVisual(items, PlanGraph(items), items[i])
  }

  ghost predicate UnmetDependency(items: seq<WorkItem>, dependencies: seq<Dependency>, x: Issue) {
    exists k :: 0 <= k < |dependencies| && UnmetAt(items, dependencies[k], x)
  }

  ghost predicate UnmetAt(items: seq<WorkItem>, d: Dependency, x: Issue) {
    exists i :: 0 <= i < |items| && DependencyViolation(items, PlanGraph(items), d, items[i], x)
  }

  ghost predicate DependencyViolation(items: seq<WorkItem>, g: Graph, d: Dependency, item: WorkItem, x: Issue) {
    && x == MissingRequirementDependency(item.plan.id, d.prerequisite, d.dependent)
    && OpenFeature(item) && d.dependent in item.plan.requirementIds
    && !RestsOnPrerequisite(items, g, item, d.prerequisite)
  }

  /** The violations that the first failing stage finds. */
  ghost predicate Violation(
      spec: AppSpec, items: seq<WorkItem>, design: Option<Design>, repair: Option<seq<string>>, x: Issue) {
    if FeatureIds(spec) == {} then x == NoApprovedFeatures
    else if !(1 <= |items| <= MAX_ITEMS) then x == ItemCount(|items|)
    else if !Distinct(Ids(items)) then
      x.DuplicateId? && exists i, j :: 0 <= i < j < |items| && items[i].plan.id == x.id && items[j].plan.id == x.id
    else if !AllLinked(spec, items, repair.Some?) then AnyLinkViolation(spec, items, repair.Some?, x)
    else if Cyclic(PlanGraph(items)) then CycleViolation(PlanGraph(items), x)
    else if repair.Some? then RepairViolation(items, repair.value, x)
    else CoverageViolation(spec, items, design, x)
  }

  // ---------------------------------------------------------------- the ancestor worklist

  // The worklist state: what is done is closed downwards, acyclic and has its exact ancestors.
  ghost predicate Worked(g: Graph, ancestors: map<string, set<string>>, remaining: Graph) {
    && ancestors.Keys <= g.Keys && remaining.Keys == g.Keys - ancestors.Keys
    && (forall k :: k in remaining ==> remaining[k] == g[k])
    && DownClosed(g, ancestors.Keys) && AcyclicOn(g, ancestors.Keys)
    && (forall k :: k in ancestors ==> ancestors[k] == Prerequisites(g, k))
  }

  // The keys whose dependencies are all done, in the order of the plan.
  function Ready(ids: seq<string>, remaining: Graph, done: set<string>): (ready: seq<string>)
    requires Distinct(ids)
    ensures forall k :: k in ready <==> k in ids && k in remaining && remaining[k] <= done
    ensures Distinct(ready)
  {
    if ids == [] then []
    else
      var n := |ids| - 1;
      var k := ids[n];
      assert Distinct(ids[..n]) && k !in ids[..n];
      Ready(ids[..n], remaining, done) + if k in remaining && remaining[k] <= done then [k] else []
  }

  /**
   * The ancestors worklist.  It succeeds exactly when the dependency graph is acyclic, and then
   * maps each item to exactly its direct and indirect prerequisites; otherwise it reports exactly
   * the items on or behind a cycle.
   */
  method ResolveAncestors(ids: seq<string>, g: Graph) returns (r: Result<map<string, set<string>>, seq<Issue>>)
    requires Distinct(ids) && Elements(ids) == g.Keys && Closed(g)
    ensures r.Ok? <==> !Cyclic(g)
    ensures r.Ok? ==> r.value.Keys == g.Keys && forall k :: k in g ==> r.value[k] == Prerequisites(g, k)
    ensures r.Err? ==> r.error != [] && forall x :: x in r.error <==> CycleViolation(g, x)
  {
    var ancestors: map<string, set<string>> := map[];
    var remaining := g;
    while remaining != map[]
      invariant Worked(g, ancestors, remaining)
      decreases |remaining|
    {
      var ready := Ready(ids, remaining, ancestors.Keys);
      if ready == [] {
        NothingReady(g, ids, ancestors, remaining);
        var issues := CycleIssues(ids, remaining, ancestors.Keys);
        CycleIssuesExact(g, ids, ancestors, remaining, issues);
        return Err(issues);
      }
      var before := remaining;
      ancestors, remaining := WorkOffAll(g, ancestors, remaining, ready);
      FewerRemain(before, remaining, ready[0]);
    }
    AllWorked(g, ancestors, remaining);
    return Ok(ancestors);
  }

  // The inner loop: records the ancestors of every ready key and takes it off the worklist.
  method WorkOffAll(ghost g: Graph, before: map<string, set<string>>, open: Graph, ready: seq<string>)
    returns (ancestors: map<string, set<string>>, remaining: Graph)
    requires Closed(g) && Worked(g, before, open) && Distinct(ready)
    requires forall k :: k in ready ==> k in open && g[k] <= before.Keys
    ensures Worked(g, ancestors, remaining)
    ensures remaining.Keys == open.Keys - Elements(ready)
  {
    ancestors, remaining := before, open;
    for i := 0 to |ready|
      invariant Worked(g, ancestors, remaining)
      invariant before.Keys <= ancestors.Keys
      invariant remaining.Keys == open.Keys - Elements(ready[..i])
    {
      var key := ready[i];
      assert key in ready && key !in ready[..i];
      WorkOff(g, ancestors, remaining, key);
      var deps := remaining[key];
      remaining := remaining - {key};
      ancestors := ancestors[key := deps + set d, p | d in deps && p in ancestors[d] :: p];
      assert ready[..i + 1] == ready[..i] + [key];
    }
    assert ready[..|ready|] == ready;
  }

  function CycleIssues(ids: seq<string>, remaining: Graph, done: set<string>): (issues: seq<Issue>)
    ensures forall x :: x in issues <==>
              x.CyclicDependency? && x.id in ids && x.id in remaining && x.unresolved == remaining[x.id] - done
  {
    if ids == [] then []
    else
      var n := |ids| - 1;
      var k := ids[n];
      assert forall i :: i in ids <==> i in ids[..n] || i == k;
      CycleIssues(ids[..n], remaining, done) +
      if k in remaining then [CyclicDependency(k, remaining[k] - done)] else []
  }

  lemma {:induction false} FewerRemain(before: Graph, after: Graph, gone: string)
    requires after.Keys <= before.Keys && gone in before && gone !in after
    ensures |after| < |before|
  {
    assert after.Keys <= before.Keys - {gone};
    SubsetSize(after.Keys, before.Keys - {gone});
  }

  lemma {:induction false} SubsetSize<T>(a: set<T>, b: set<T>)
    requires a <= b
    ensures |a| <= |b|
  {
    if x :| x in a {
      SubsetSize(a - {x}, b - {x});
    }
  }

  lemma {:induction false} WorkOff(g: Graph, ancestors: map<string, set<string>>, remaining: Graph, key: string)
    requires Closed(g) && Worked(g, ancestors, remaining)
    requires key in remaining && g[key] <= ancestors.Keys
    ensures var deps := remaining[key];
            Worked(g, ancestors[key := deps + set d, p | d in deps && p in ancestors[d] :: p], remaining - {key})
  {
    var deps := remaining[key];
    var found := deps + set d, p | d in deps && p in ancestors[d] :: p;
    PrerequisitesUnfold(g, key);
    assert found == Prerequisites(g, key);
    ExtendAcyclic(g, ancestors.Keys, {key});
    assert ancestors[key := found].Keys == ancestors.Keys + {key};
  }

  lemma {:induction false} AllWorked(g: Graph, ancestors: map<string, set<string>>, remaining: Graph)
    requires Worked(g, ancestors, remaining) && remaining == map[]
    ensures !Cyclic(g) && ancestors.Keys == g.Keys
  {
    AcyclicOnAll(g);
  }

  lemma {:induction false} NothingReady(g: Graph, ids: seq<string>, ancestors: map<string, set<string>>, remaining: Graph)
    requires Closed(g) && Worked(g, ancestors, remaining) && Elements(ids) == g.Keys && Distinct(ids)
    requires remaining != map[] && Ready(ids, remaining, ancestors.Keys) == []
    ensures Stuck(g, remaining.Keys) && Cyclic(g)
  {
    forall k | k in remaining
      ensures g[k] * remaining.Keys != {}
    {
      assert k in Elements(ids);
      var d :| d in g[k] && d !in ancestors.Keys;
      assert d in g[k] * remaining.Keys;
    }
    StuckSetHasCycle(g, remaining.Keys);
  }

  // What is left of a blocked node is its blocked dependencies.
  ghost predicate BlockedAs(g: Graph, ancestors: map<string, set<string>>, remaining: Graph, k: string)
    requires k in g
  {
    && (Blocked(g, k) <==> k in remaining)
    && (k in remaining ==> remaining[k] - ancestors.Keys == set d | d in g[k] && Blocked(g, d))
  }

  lemma {:induction false} BlockedRemains(g: Graph, ancestors: map<string, set<string>>, remaining: Graph, k: string)
    requires Closed(g) && Worked(g, ancestors, remaining) && Stuck(g, remaining.Keys) && k in g
    ensures BlockedAs(g, ancestors, remaining, k)
  {
    forall d | d in g
      ensures Blocked(g, d) <==> d in remaining
    {
      if d in remaining {
        StuckNodeIsBlocked(g, remaining.Keys, d);
      } else {
        DoneIsNotBlocked(g, ancestors.Keys, d);
      }
    }
  }

  lemma {:induction false} CycleIssuesExact(
      g: Graph, ids: seq<string>, ancestors: map<string, set<string>>, remaining: Graph, issues: seq<Issue>)
    requires Closed(g) && Worked(g, ancestors, remaining) && Elements(ids) == g.Keys && Stuck(g, remaining.Keys)
    requires issues == CycleIssues(ids, remaining, ancestors.Keys)
    ensures issues != [] && forall x :: x in issues <==> CycleViolation(g, x)
  {
    forall x
      ensures x in issues <==> CycleViolation(g, x)
    {
      if x.CyclicDependency? && x.id in g {
        BlockedRemains(g, ancestors, remaining, x.id);
        CycleIssueAt(g, ids, ancestors, remaining, x);
      }
    }
    var k :| k in remaining;
    assert k in Elements(ids);
    assert CyclicDependency(k, remaining[k] - ancestors.Keys) in issues;
  }

  lemma {:induction false} CycleIssueAt(
      g: Graph, ids: seq<string>, ancestors: map<string, set<string>>, remaining: Graph, x: Issue)
    requires x.CyclicDependency? && x.id in g && Elements(ids) == g.Keys && BlockedAs(g, ancestors, remaining, x.id)
    ensures x in CycleIssues(ids, remaining, ancestors.Keys) <==> CycleViolation(g, x)
  {
    assert x.id in Elements(ids);
  }

  // ---------------------------------------------------------------- the validator

  lemma {:induction false} PlanGraphAt(items: seq<WorkItem>, i: nat)
    requires Distinct(Ids(items)) && i < |items|
    ensures items[i].plan.id in PlanGraph(items)
    ensures PlanGraph(items)[items[i].plan.id] == Elements(items[i].plan.dependsOn)
    decreases |items|
  {
    var n := |items| - 1;
    assert Ids(items[..n]) == Ids(items)[..n];
    if i < n {
      PlanGraphAt(items[..n], i);
      assert Ids(items)[i] != Ids(items)[n];
    }
  }

  lemma {:induction false} PlanGraphClosed(spec: AppSpec, items: seq<WorkItem>, repairing: bool)
    requires Distinct(Ids(items)) && AllLinked(spec, items, repairing)
    ensures Closed(PlanGraph(items))
  {
    var g := PlanGraph(items);
    forall k | k in g
      ensures g[k] <= g.Keys
    {
      var i :| 0 <= i < |items| && Ids(items)[i] == k;
      PlanGraphAt(items, i);
      assert Linked(items[i].plan, FeatureIds(spec), Elements(Ids(items)), repairing);
    }
  }

  // What the items seen so far violate.
  ghost predicate LinksChecked(
      items: seq<WorkItem>, n: int, features: set<string>, ids: set<string>, repairing: bool, issues: seq<Issue>)
    requires n <= |items|
  {
    && (issues == [] <==> forall j :: 0 <= j < n ==> Linked(items[j].plan, features, ids, repairing))
    && (forall x :: x in issues <==> exists j :: 0 <= j < n && LinkViolation(items[j].plan, features, ids, repairing, x))
  }

  lemma {:induction false} LinksCheckedNext(
      items: seq<WorkItem>, n: nat, features: set<string>, ids: set<string>, repairing: bool, issues: seq<Issue>)
    requires n < |items| && LinksChecked(items, n, features, ids, repairing, issues)
    ensures LinksChecked(items, n + 1, features, ids, repairing, issues + LinkIssues(items[n].plan, features, ids, repairing))
  {
    LinkIssuesExact(items[n].plan, features, ids, repairing);
  }

  method CheckLinks(spec: AppSpec, items: seq<WorkItem>, repairing: bool) returns (issues: seq<Issue>)
    ensures issues == [] <==> AllLinked(spec, items, repairing)
    ensures forall x :: x in issues <==> AnyLinkViolation(spec, items, repairing, x)
  {
    var features, ids := FeatureIds(spec), Elements(Ids(items));
    issues := [];
    for i := 0 to |items|
      invariant LinksChecked(items, i, features, ids, repairing, issues)
    {
      LinksCheckedNext(items, i, features, ids, repairing, issues);
      issues := issues + LinkIssues(items[i].plan, features, ids, repairing);
    }
  }

  method CheckRepair(items: seq<WorkItem>, targets: seq<string>) returns (issues: seq<Issue>)
    ensures issues == [] <==> ValidRepair(items, targets)
    ensures forall x :: x in issues <==> RepairViolation(items, targets, x)
  {
    var count, unrelated := RepairCount(items), OutOfScope(items);
    issues := [];
    if count == 0 || count > MAX_REPAIR_ITEMS {
      issues := issues + [RepairItemCount(count)];
    }
    if unrelated != [] {
      issues := issues + [OutOfScopeRepairItems(unrelated)];
    }
    var observations := Observations(items);
    var found := issues;
    for i := 0 to |targets|
      invariant forall x :: x in issues <==>
                  x in found || (x.MissingRepairTarget? && x.target in targets[..i] && !TargetKept(items, x.target))
      invariant issues == [] <==> found == [] && forall t :: t in targets[..i] ==> TargetKept(items, t)
    {
      var kept := AnyContains(observations, targets[i]);
      KeptIsObserved(items, targets[i]);
      if !kept {
        issues := issues + [MissingRepairTarget(targets[i])];
      }
      assert targets[..i + 1] == targets[..i] + [targets[i]];
    }
    assert targets[..|targets|] == targets;
  }

  // The normalised acceptance texts of the repair items, in plan order.
  function Observations(items: seq<WorkItem>): seq<string> {
    if items == [] then []
    else
      var last := items[|items| - 1].plan;
      Observations(items[..|items| - 1]) + if last.kind.Repair? then [Observed(last)] else []
  }

  method AnyContains(texts: seq<string>, part: string) returns (found: bool)
    ensures found <==> exists t :: t in texts && Occurs(part, t)
  {
    for i := 0 to |texts|
      invariant forall t :: t in texts[..i] ==> !Occurs(part, t)
    {
      if Contains(texts[i], part) {
        return true;
      }
    }
    return false;
  }

  lemma {:induction false} KeptIsObserved(items: seq<WorkItem>, target: string)
    ensures TargetKept(items, target) <==> exists t :: t in Observations(items) && Occurs(target, t)
    decreases |items|
  {
    if items != [] {
      var n := |items| - 1;
      KeptIsObserved(items[..n], target);
      KeptSnoc(items[..n], items[n], target);
      assert items == items[..n] + [items[n]];
    }
  }

  lemma {:induction false} KeptSnoc(items: seq<WorkItem>, last: WorkItem, target: string)
    ensures TargetKept(items + [last], target) <==>
            TargetKept(items, target) || (last.plan.kind.Repair? && Occurs(target, Observed(last.plan)))
  {
    var all := items + [last];
    assert all[|items|] == last;
    if TargetKept(items, target) {
      var j :| 0 <= j < |items| && items[j].plan.kind.Repair? && Occurs(target, Observed(items[j].plan));
      assert all[j] == items[j];
    }
  }

  // The ancestors that ResolveAncestors computes for the items of a plan.
  ghost predicate Resolved(items: seq<WorkItem>, ancestors: map<string, set<string>>) {
    && Distinct(Ids(items)) && ancestors.Keys == Elements(Ids(items))
    && forall k :: k in ancestors ==> ancestors[k] == Prerequisites(PlanGraph(items), k)
  }

  // An unfinished feature item none of whose computed ancestors is in the visual set.
  predicate LacksVisual(item: WorkItem, visual: set<string>, ancestors: map<string, set<string>>)
    requires item.plan.id in ancestors
  {
    OpenFeature(item) && visual * ancestors[item.plan.id] == {}
  }

  method CheckVisual(items: seq<WorkItem>, visual: set<string>, ancestors: map<string, set<string>>)
    returns (issues: seq<Issue>)
    requires ancestors.Keys == Elements(Ids(items))
    ensures issues == [] <==> forall i :: 0 <= i < |items| ==> Ids(items)[i] in ancestors && !LacksVisual(items[i], visual, ancestors)
    ensures forall x :: x in issues <==> x.MissingVisualDependency? && VisualGap(items, visual, ancestors, |items|, x.id)
  {
    issues := [];
    for i := 0 to |items|
      invariant issues == [] <==> forall j :: 0 <= j < i ==> Ids(items)[j] in ancestors && !LacksVisual(items[j], visual, ancestors)
      invariant forall x :: x in issues <==> x.MissingVisualDependency? && VisualGap(items, visual, ancestors, i, x.id)
    {
      assert Ids(items)[i] in ancestors;
      if LacksVisual(items[i], visual, ancestors) {
        issues := issues + [MissingVisualDependency(items[i].plan.id)];
      }
    }
  }

  ghost predicate VisualGap(items: seq<WorkItem>, visual: set<string>, ancestors: map<string, set<string>>, n: nat, id: string)
    requires n <= |items|
  {
    exists j :: 0 <= j < n && items[j].plan.id == id && id in ancestors && LacksVisual(items[j], visual, ancestors)
  }

  lemma {:induction false} VisualByAncestors(items: seq<WorkItem>, ancestors: map<string, set<string>>, visual: set<string>, i: nat)
    requires Resolved(items, ancestors) && i < |items| && items[i].plan.id in ancestors
    requires visual == set j | 0 <= j < |items| && items[j].plan.kind.VisualFoundation? :: items[j].plan.id
    ensures RestsOnVisual(items, PlanGraph(items), items[i]) <==> visual * ancestors[items[i].plan.id] != {}
  {
    var g := PlanGraph(items);
    if RestsOnVisual(items, g, items[i]) {
      var j :| 0 <= j < |items| && items[j].plan.kind.VisualFoundation? && Reaches(g, items[i].plan.id, items[j].plan.id);
      ReachesInGraph(g, items[i].plan.id, items[j].plan.id);
      assert items[j].plan.id in visual * ancestors[items[i].plan.id];
    }
    if k :| k in visual * ancestors[items[i].plan.id] {
      var j :| 0 <= j < |items| && items[j].plan.kind.VisualFoundation? && items[j].plan.id == k;
    }
  }

  // Python's any(...) over the ancestors of an item.
  predicate SomeAncestorProvides(byId: map<string, PlannedItem>, parents: set<string>, prerequisite: string)
    requires parents <= byId.Keys
  {
    exists p :: p in parents && prerequisite in Provided(byId[p])
  }

  function ById(items: seq<WorkItem>): (m: map<string, PlannedItem>)
    ensures m.Keys == Elements(Ids(items))
    ensures forall k :: k in m ==> exists i :: 0 <= i < |items| && items[i].plan.id == k && m[k] == items[i].plan
  {
    if items == [] then map[]
    else
      var n := |items| - 1;
      assert Ids(items) == Ids(items[..n]) + [items[n].plan.id];
      var front := ById(items[..n]);
      var m := front[items[n].plan.id := items[n].plan];
      forall k | k in m
        ensures exists i :: 0 <= i < |items| && items[i].plan.id == k && m[k] == items[i].plan
      {
        if k != items[n].plan.id {
          assert exists i :: 0 <= i < n && items[..n][i].plan.id == k && front[k] == items[..n][i].plan;
        }
      }
      m
  }

  lemma {:induction false} ParentsAreItems(items: seq<WorkItem>, ancestors: map<string, set<string>>, id: string)
    requires Resolved(items, ancestors) && id in ancestors
    ensures ancestors[id] <= ById(items).Keys
  {
    forall p | p in ancestors[id]
      ensures p in ById(items)
    {
      assert p in PlanGraph(items);
    }
  }

  lemma {:induction false} PrerequisiteFound(items: seq<WorkItem>, ancestors: map<string, set<string>>, i: nat, prerequisite: string)
    requires Resolved(items, ancestors) && i < |items| && items[i].plan.id in ancestors
    requires ancestors[items[i].plan.id] <= ById(items).Keys
    requires RestsOnPrerequisite(items, PlanGraph(items), items[i], prerequisite)
    ensures SomeAncestorProvides(ById(items), ancestors[items[i].plan.id], prerequisite)
  {
    var g, m, id := PlanGraph(items), ById(items), items[i].plan.id;
    var j :| 0 <= j < |items| && Reaches(g, id, items[j].plan.id) && Supplies(items[j].plan, prerequisite);
    var p := items[j].plan.id;
    ReachesInGraph(g, id, p);
    ByIdAt(items, j);
    SuppliesProvided(items[j].plan, prerequisite);
    assert p in ancestors[id] by { assert p in Prerequisites(g, id); }
  }

  lemma {:induction false} ByIdHas(items: seq<WorkItem>, i: nat)
    requires i < |items|
    ensures items[i].plan.id in ById(items)
  {
    assert Ids(items)[i] in Elements(Ids(items));
  }

  lemma {:induction false} SameIdSameItem(items: seq<WorkItem>, i: nat, j: nat)
    requires Distinct(Ids(items)) && i < |items| && j < |items| && items[i].plan.id == items[j].plan.id
    ensures i == j
  {
    assert Ids(items)[i] == Ids(items)[j];
  }

  lemma {:induction false} ByIdAt(items: seq<WorkItem>, i: nat)
    requires Distinct(Ids(items)) && i < |items|
    ensures items[i].plan.id in ById(items) && ById(items)[items[i].plan.id] == items[i].plan
  {
    var id := items[i].plan.id;
    ByIdHas(items, i);
    var j :| 0 <= j < |items| && items[j].plan.id == id && ById(items)[id] == items[j].plan;
    SameIdSameItem(items, i, j);
  }

  lemma {:induction false} PrerequisiteReached(items: seq<WorkItem>, ancestors: map<string, set<string>>, i: nat, prerequisite: string)
    requires Resolved(items, ancestors) && i < |items| && items[i].plan.id in ancestors
    requires ancestors[items[i].plan.id] <= ById(items).Keys
    requires SomeAncestorProvides(ById(items), ancestors[items[i].plan.id], prerequisite)
    ensures RestsOnPrerequisite(items, PlanGraph(items), items[i], prerequisite)
  {
    var g, m, id := PlanGraph(items), ById(items), items[i].plan.id;
    var p :| p in ancestors[id] && prerequisite in Provided(m[p]);
    var k :| 0 <= k < |items| && items[k].plan.id == p && m[p] == items[k].plan;
    SuppliesProvided(items[k].plan, prerequisite);
    assert Reaches(g, id, items[k].plan.id);
  }

  // An unfinished feature item that depends on a requirement no computed ancestor provides.
  predicate LacksPrerequisite(
      item: WorkItem, d: Dependency, byId: map<string, PlannedItem>, ancestors: map<string, set<string>>)
    requires item.plan.id in ancestors && ancestors[item.plan.id] <= byId.Keys
  {
    && OpenFeature(item) && d.dependent in item.plan.requirementIds
    && !SomeAncestorProvides(byId, ancestors[item.plan.id], d.prerequisite)
  }

  ghost predicate Grounded(items: seq<WorkItem>, byId: map<string, PlannedItem>, ancestors: map<string, set<string>>) {
    forall i :: 0 <= i < |items| ==> items[i].plan.id in ancestors && ancestors[items[i].plan.id] <= byId.Keys
  }

  ghost predicate PrerequisiteGap(
      items: seq<WorkItem>, d: Dependency, byId: map<string, PlannedItem>, ancestors: map<string, set<string>>, n: nat, x: Issue)
    requires n <= |items| && Grounded(items, byId, ancestors)
  {
    exists j :: 0 <= j < n && LacksPrerequisite(items[j], d, byId, ancestors)
      && x == MissingRequirementDependency(items[j].plan.id, d.prerequisite, d.dependent)
  }

  method CheckDependency(
      items: seq<WorkItem>, d: Dependency, byId: map<string, PlannedItem>, ancestors: map<string, set<string>>)
    returns (issues: seq<Issue>)
    requires Grounded(items, byId, ancestors)
    ensures issues == [] <==> forall i :: 0 <= i < |items| ==> !LacksPrerequisite(items[i], d, byId, ancestors)
    ensures forall x :: x in issues <==> PrerequisiteGap(items, d, byId, ancestors, |items|, x)
  {
    issues := [];
    for i := 0 to |items|
      invariant issues == [] <==> forall j :: 0 <= j < i ==> !LacksPrerequisite(items[j], d, byId, ancestors)
      invariant forall x :: x in issues <==> PrerequisiteGap(items, d, byId, ancestors, i, x)
    {
      if LacksPrerequisite(items[i], d, byId, ancestors) {
        issues := issues + [MissingRequirementDependency(items[i].plan.id, d.prerequisite, d.dependent)];
      }
    }
  }

  ghost predicate PrerequisiteGaps(
      items: seq<WorkItem>, deps: seq<Dependency>, byId: map<string, PlannedItem>, ancestors: map<string, set<string>>,
      n: nat, x: Issue)
    requires n <= |deps| && Grounded(items, byId, ancestors)
  {
    exists h :: 0 <= h < n && PrerequisiteGap(items, deps[h], byId, ancestors, |items|, x)
  }

  method CheckDependencies(
      items: seq<WorkItem>, deps: seq<Dependency>, byId: map<string, PlannedItem>, ancestors: map<string, set<string>>)
    returns (issues: seq<Issue>)
    requires Grounded(items, byId, ancestors)
    ensures issues == [] <==>
              forall k, i :: 0 <= k < |deps| && 0 <= i < |items| ==> !LacksPrerequisite(items[i], deps[k], byId, ancestors)
    ensures forall x :: x in issues <==> PrerequisiteGaps(items, deps, byId, ancestors, |deps|, x)
  {
    issues := [];
    for k := 0 to |deps|
      invariant issues == [] <==>
                  forall h, i :: 0 <= h < k && 0 <= i < |items| ==> !LacksPrerequisite(items[i], deps[h], byId, ancestors)
      invariant forall x :: x in issues <==> PrerequisiteGaps(items, deps, byId, ancestors, k, x)
    {
      var more := CheckDependency(items, deps[k], byId, ancestors);
      issues := issues + more;
    }
  }

  // The computed tests agree with reachability, item by item.
  lemma {:induction false} TestsAgree(items: seq<WorkItem>, ancestors: map<string, set<string>>, visual: set<string>, i: nat, prerequisite: string)
    requires Resolved(items, ancestors) && i < |items|
    requires visual == set j | 0 <= j < |items| && items[j].plan.kind.VisualFoundation? :: items[j].plan.id
    ensures items[i].plan.id in ancestors && ancestors[items[i].plan.id] <= ById(items).Keys
    ensures RestsOnVisual(items, PlanGraph(items), items[i]) <==> visual * ancestors[items[i].plan.id] != {}
    ensures RestsOnPrerequisite(items, PlanGraph(items), items[i], prerequisite) <==>
            SomeAncestorProvides(ById(items), ancestors[items[i].plan.id], prerequisite)
  {
    assert Ids(items)[i] == items[i].plan.id;
    ParentsAreItems(items, ancestors, items[i].plan.id);
    VisualByAncestors(items, ancestors, visual, i);
    if RestsOnPrerequisite(items, PlanGraph(items), items[i], prerequisite) {
      PrerequisiteFound(items, ancestors, i, prerequisite);
    }
    if SomeAncestorProvides(ById(items), ancestors[items[i].plan.id], prerequisite) {
      PrerequisiteReached(items, ancestors, i, prerequisite);
    }
  }

  lemma {:induction false} VisualIssuesMean(items: seq<WorkItem>, ancestors: map<string, set<string>>, x: Issue)
    requires Resolved(items, ancestors)
    ensures x.MissingVisualDependency? && VisualGap(items, VisualIds(items), ancestors, |items|, x.id) <==> VisualViolation(items, x)
  {
    if x.MissingVisualDependency? {
      forall i | 0 <= i < |items| && items[i].plan.id == x.id
        ensures UnvisualAt(items, i, x.id) <==> x.id in ancestors && LacksVisual(items[i], VisualIds(items), ancestors)
      {
        TestsAgree(items, ancestors, VisualIds(items), i, "");
      }
    }
  }

  lemma {:induction false} DependencyIssuesMean(items: seq<WorkItem>, ancestors: map<string, set<string>>, d: Dependency, x: Issue)
    requires Resolved(items, ancestors) && Grounded(items, ById(items), ancestors)
    ensures PrerequisiteGap(items, d, ById(items), ancestors, |items|, x) <==> UnmetAt(items, d, x)
  {
    forall i | 0 <= i < |items|
      ensures LacksPrerequisite(items[i], d, ById(items), ancestors) <==>
              OpenFeature(items[i]) && d.dependent in items[i].plan.requirementIds
              && !RestsOnPrerequisite(items, PlanGraph(items), items[i], d.prerequisite)
    {
      TestsAgree(items, ancestors, VisualIds(items), i, d.prerequisite);
    }
  }

  lemma {:induction false} ItemsGrounded(items: seq<WorkItem>, ancestors: map<string, set<string>>)
    requires Resolved(items, ancestors)
    ensures Grounded(items, ById(items), ancestors)
  {
    forall i | 0 <= i < |items|
      ensures items[i].plan.id in ancestors && ancestors[items[i].plan.id] <= ById(items).Keys
    {
      TestsAgree(items, ancestors, VisualIds(items), i, "");
    }
  }

  // A valid coverage is one without violations, given a sound design.
  lemma {:induction false} NoViolationMeansCovered(spec: AppSpec, items: seq<WorkItem>, design: Option<Design>)
    requires design.Some? ==> SoundDesign(design.value, spec)
    ensures ValidCoverage(spec, items, design) <==> forall x :: !CoverageViolation(spec, items, design, x)
  {
    if forall x :: !CoverageViolation(spec, items, design, x) {
      assert !CoverageViolation(spec, items, design, MissingFeatureCoverage(Uncovered(spec, items)));
      assert !CoverageViolation(spec, items, design, MissingVisualFoundation);
      forall i | 0 <= i < |items| && OpenFeature(items[i])
        ensures RestsOnVisual(items, PlanGraph(items), items[i])
      {
        assert !CoverageViolation(spec, items, design, MissingVisualDependency(items[i].plan.id));
        assert !UnvisualAt(items, i, items[i].plan.id);
      }
      if design.Some? {
        forall d, i | d in design.value.dependencies && 0 <= i < |items| && OpenFeature(items[i])
                      && d.dependent in items[i].plan.requirementIds
          ensures RestsOnPrerequisite(items, PlanGraph(items), items[i], d.prerequisite)
        {
          var x := MissingRequirementDependency(items[i].plan.id, d.prerequisite, d.dependent);
          assert !CoverageViolation(spec, items, design, x);
          var k :| 0 <= k < |design.value.dependencies| && design.value.dependencies[k] == d;
          assert !UnmetAt(items, design.value.dependencies[k], x);
          assert !DependencyViolation(items, PlanGraph(items), d, items[i], x);
        }
      }
    }
    if ValidCoverage(spec, items, design) {
      forall x
        ensures !CoverageViolation(spec, items, design, x)
      {
        CoveredHasNoViolation(spec, items, design, x);
      }
    }
  }

  lemma {:induction false} CoveredHasNoViolation(spec: AppSpec, items: seq<WorkItem>, design: Option<Design>, x: Issue)
    requires ValidCoverage(spec, items, design)
    ensures !CoverageViolation(spec, items, design, x)
  {
  }

  // A report of all violations is empty exactly when the coverage is valid.
  lemma {:induction false} EmptyReportMeansCovered(spec: AppSpec, items: seq<WorkItem>, design: Option<Design>, issues: seq<Issue>)
    requires design.Some? ==> SoundDesign(design.value, spec)
    requires forall x :: x in issues <==> CoverageViolation(spec, items, design, x)
    ensures issues == [] <==> ValidCoverage(spec, items, design)
  {
    NoViolationMeansCovered(spec, items, design);
    if issues != [] {
      assert issues[0] in issues;
    }
  }

  function Report(spec: AppSpec, items: seq<WorkItem>, visualIssues: seq<Issue>, designIssues: seq<Issue>): seq<Issue> {
    IssueIf(Uncovered(spec, items) != {}, MissingFeatureCoverage(Uncovered(spec, items)))
    + IssueIf(VisualIds(items) == {}, MissingVisualFoundation) + visualIssues + designIssues
  }

  lemma {:induction false} ReportMember(missing: set<string>, visual: set<string>, a: seq<Issue>, b: seq<Issue>, x: Issue)
    ensures x in IssueIf(missing != {}, MissingFeatureCoverage(missing)) + IssueIf(visual == {}, MissingVisualFoundation) + a + b
            <==> (x == MissingFeatureCoverage(missing) && missing != {}) || (x == MissingVisualFoundation && visual == {})
                 || x in a || x in b
  {
  }

  // The last stage: coverage, visual foundation and the design's prerequisites.
  method CheckCoverage(spec: AppSpec, items: seq<WorkItem>, design: Option<Design>, ancestors: map<string, set<string>>)
    returns (r: Result<seq<Issue>, DesignError>)
    requires Resolved(items, ancestors)
    ensures r.Err? <==> design.Some? && !SoundDesign(design.value, spec)
    ensures r.Ok? ==> (r.value == [] <==> ValidCoverage(spec, items, design))
    ensures r.Ok? ==> forall x :: x in r.value <==> CoverageViolation(spec, items, design, x)
  {
    var visual := VisualIds(items);
    var visualIssues := CheckVisual(items, visual, ancestors);
    var designIssues: seq<Issue> := [];
    ItemsGrounded(items, ancestors);
    if design.Some? {
      var sound := ValidateRequirementDependencies(design.value, spec);
      if sound.Err? {
        return Err(sound.error);
      }
      designIssues := CheckDependencies(items, design.value.dependencies, ById(items), ancestors);
    }
    var issues := Report(spec, items, visualIssues, designIssues);
    forall x
      ensures x in issues <==> CoverageViolation(spec, items, design, x)
    {
      ReportExact(spec, items, design, ancestors, visualIssues, designIssues, x);
    }
    EmptyReportMeansCovered(spec, items, design, issues);
    return Ok(issues);
  }

  lemma {:induction false} ReportExact(
      spec: AppSpec, items: seq<WorkItem>, design: Option<Design>, ancestors: map<string, set<string>>,
      visualIssues: seq<Issue>, designIssues: seq<Issue>, x: Issue)
    requires Resolved(items, ancestors) && Grounded(items, ById(items), ancestors)
    requires x in visualIssues <==> x.MissingVisualDependency? && VisualGap(items, VisualIds(items), ancestors, |items|, x.id)
    requires design.None? ==> designIssues == []
    requires design.Some? ==>
               var deps := design.value.dependencies;
               (x in designIssues <==> PrerequisiteGaps(items, deps, ById(items), ancestors, |deps|, x))
    ensures x in Report(spec, items, visualIssues, designIssues) <==> CoverageViolation(spec, items, design, x)
  {
    assert x in visualIssues <==> VisualViolation(items, x) by {
      VisualIssuesMean(items, ancestors, x);
    }
    if design.Some? {
      assert x in designIssues <==> UnmetDependency(items, design.value.dependencies, x) by {
        DependencyGapsMean(items, ancestors, design.value.dependencies, x);
      }
    }
    ReportMember(Uncovered(spec, items), VisualIds(items), visualIssues, designIssues, x);
  }

  lemma {:induction false} DependencyGapsMean(items: seq<WorkItem>, ancestors: map<string, set<string>>, deps: seq<Dependency>, x: Issue)
    requires Resolved(items, ancestors) && Grounded(items, ById(items), ancestors)
    ensures PrerequisiteGaps(items, deps, ById(items), ancestors, |deps|, x) <==> UnmetDependency(items, deps, x)
  {
    forall k | 0 <= k < |deps|
      ensures PrerequisiteGap(items, deps[k], ById(items), ancestors, |items|, x) <==> UnmetAt(items, deps[k], x)
    {
      DependencyIssuesMean(items, ancestors, deps[k], x);
    }
  }

  /**
   * Accepts exactly the valid plans.  Otherwise the report is the complete set of violations of
   * the first stage that fails, or the design's own error when the design itself is unsound.
   */
  method ValidateDeliveryPlan(spec: AppSpec, items: seq<WorkItem>, design: Option<Design>, repair: Option<seq<string>>)
    returns (r: Result<(), PlanError>)
    ensures r.Ok? <==> ValidPlan(spec, items, design, repair)
    ensures r.Err? && r.error.InvalidPlan? ==>
              r.error.issues != [] && forall x :: x in r.error.issues <==> Violation(spec, items, design, repair, x)
    ensures r.Err? && r.error.InvalidDesign? ==> repair.None? && design.Some? && !SoundDesign(design.value, spec)
  {
    if FeatureIds(spec) == {} {
      return Err(InvalidPlan([NoApprovedFeatures]));
    }
    if items == [] || |items| > MAX_ITEMS {
      return Err(InvalidPlan([ItemCount(|items|)]));
    }
    if !Distinct(Ids(items)) {
      var duplicates := Duplicates(items);
      return Err(InvalidPlan(duplicates));
    }
    var links := CheckLinks(spec, items, repair.Some?);
    if links != [] {
      return Err(InvalidPlan(links));
    }
    PlanGraphClosed(spec, items, repair.Some?);
    var ancestors := ResolveAncestors(Ids(items), PlanGraph(items));
    if ancestors.Err? {
      return Err(InvalidPlan(ancestors.error));
    }
    if repair.Some? {
      var issues := CheckRepair(items, repair.value);
      return if issues == [] then Ok(()) else Err(InvalidPlan(issues));
    }
    var issues := CheckCoverage(spec, items, design, ancestors.value);
    if issues.Err? {
      return Err(InvalidDesign(issues.error));
    }
    return if issues.value == [] then Ok(()) else Err(InvalidPlan(issues.value));
  }

  method Duplicates(items: seq<WorkItem>) returns (issues: seq<Issue>)
    ensures issues == [] <==> Distinct(Ids(items))
    ensures forall x :: x in issues <==>
              x.DuplicateId? && (exists i, j :: 0 <= i < j < |items| && items[i].plan.id == x.id && items[j].plan.id == x.id)
  {
    issues := [];
    for j := 0 to |items|
      invariant forall x :: x in issues <==> Repeated(items, j, x)
    {
      var id := items[j].plan.id;
      forall x
        ensures Repeated(items, j + 1, x) <==> Repeated(items, j, x) || (x == DuplicateId(id) && SeenBefore(items, j))
      {
        RepeatedNext(items, j, x);
      }
      if (exists i :: 0 <= i < j && items[i].plan.id == id) && DuplicateId(id) !in issues {
        issues := issues + [DuplicateId(id)];
      }
    }
    NoneRepeated(items, issues);
  }

  // The first n items use this id twice.
  ghost predicate Repeated(items: seq<WorkItem>, n: int, x: Issue)
    requires n <= |items|
  {
    x.DuplicateId? && exists i, k :: 0 <= i < k < n && items[i].plan.id == x.id && items[k].plan.id == x.id
  }

  ghost predicate SeenBefore(items: seq<WorkItem>, j: nat)
    requires j < |items|
  {
    exists i :: 0 <= i < j && items[i].plan.id == items[j].plan.id
  }

  lemma {:induction false} RepeatedNext(items: seq<WorkItem>, j: nat, x: Issue)
    requires j < |items|
    ensures Repeated(items, j + 1, x) <==> Repeated(items, j, x) || (x == DuplicateId(items[j].plan.id) && SeenBefore(items, j))
  {
  }

  lemma {:induction false} NoneRepeated(items: seq<WorkItem>, issues: seq<Issue>)
    requires forall x :: x in issues <==> Repeated(items, |items|, x)
    ensures issues == [] <==> Distinct(Ids(items))
  {
    if issues != [] {
      var x := issues[0];
      assert x in issues;
      var i, k :| 0 <= i < k < |items| && items[i].plan.id == x.id && items[k].plan.id == x.id;
      assert Ids(items)[i] == Ids(items)[k];
    } else {
      forall i, k | 0 <= i < k < |items|
        ensures Ids(items)[i] != Ids(items)[k]
      {
        assert !Repeated(items, |items|, DuplicateId(items[i].plan.id));
      }
    }
  }
}
