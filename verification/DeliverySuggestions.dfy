/**
 * The delivery plan the platform proposes itself, generation/delivery.py: drawn from the approved
 * features and the prerequisites of the design.  What is proved is that the validator of
 * DeliveryPlans accepts it.
 */
module DeliverySuggestions {
  import opened Results
  import opened Graphs
  import opened AppSpecs
  import opened SystemDesigns
  import opened Texts
  import opened DeliveryPlans

  function Pending(p: PlannedItem): WorkItem {
    WorkItem(p, "pending", None)
  }

  function AllPending(items: seq<PlannedItem>): (work: seq<WorkItem>)
    ensures |work| == |items| && forall i :: 0 <= i < |items| ==> work[i] == Pending(items[i])
  {
    seq(|items|, i requires 0 <= i < |items| => Pending(items[i]))
  }

  // ---------------------------------------------------------------- the prerequisite closure

  // The same worklist state as for ancestors, with each node added to its own closure.
  ghost predicate Spread(g: Graph, ancestors: map<string, set<string>>, available: map<string, set<string>>, remaining: Graph) {
    && Worked(g, ancestors, remaining) && available.Keys == ancestors.Keys
    && forall k :: k in available ==> available[k] == {k} + ancestors[k]
  }

  // A key with everything that its direct prerequisites give access to.
  function OwnClosure(available: map<string, set<string>>, parents: set<string>, key: string): set<string>
    requires parents <= available.Keys
  {
    {key} + set p, r | p in parents && r in available[p] :: r
  }

  /**
   * The `available` worklist.  It has no stall guard: it ends because the graph has no cycle, so
   * some open key always has all its prerequisites done.  It computes the reflexive-transitive
   * prerequisite closure.
   */
  method CloseOver(ids: seq<string>, g: Graph) returns (available: map<string, set<string>>)
    requires Distinct(ids) && Elements(ids) == g.Keys && Closed(g) && !Cyclic(g)
    ensures available.Keys == g.Keys
    ensures forall k :: k in g ==> available[k] == {k} + Prerequisites(g, k)
  {
    available := map[];
    var remaining := g;
    ghost var ancestors: map<string, set<string>> := map[];
    while remaining != map[]
      invariant Spread(g, ancestors, available, remaining)
      decreases |remaining|
    {
      var ready := Ready(ids, remaining, available.Keys);
      SomeReady(g, ids, ancestors, remaining, ready);
      var before := remaining;
      available, remaining, ancestors := SpreadAll(g, ancestors, available, remaining, ready);
      FewerRemain(before, remaining, ready[0]);
    }
    AllWorked(g, ancestors, remaining);
  }

  lemma {:induction false} SpreadOne(
      g: Graph, doneBefore: map<string, set<string>>, available: map<string, set<string>>, remaining: Graph, key: string)
    returns (ancestors: map<string, set<string>>)
    requires Closed(g) && Spread(g, doneBefore, available, remaining)
    requires key in remaining && key in g && g[key] <= available.Keys
    ensures remaining[key] <= available.Keys
    ensures var parents := remaining[key];
            Spread(g, ancestors, available[key := OwnClosure(available, parents, key)], remaining - {key})
  {
    var parents := remaining[key];
    WorkOff(g, doneBefore, remaining, key);
    WithSelf(parents, doneBefore, available, key);
    var above := parents + set d, p | d in parents && p in doneBefore[d] :: p;
    ancestors := doneBefore[key := above];
    SpreadExtends(g, doneBefore, available, remaining, key, above);
  }

  lemma {:induction false} SpreadExtends(
      g: Graph, ancestors: map<string, set<string>>, available: map<string, set<string>>, remaining: Graph, key: string, above: set<string>)
    requires Spread(g, ancestors, available, remaining) && Worked(g, ancestors[key := above], remaining - {key})
    ensures Spread(g, ancestors[key := above], available[key := {key} + above], remaining - {key})
  {
  }

  method SpreadAll(
      ghost g: Graph, ghost doneBefore: map<string, set<string>>, before: map<string, set<string>>, open: Graph, ready: seq<string>)
    returns (available: map<string, set<string>>, remaining: Graph, ghost ancestors: map<string, set<string>>)
    requires Closed(g) && Spread(g, doneBefore, before, open) && Distinct(ready)
    requires forall k :: k in ready ==> k in open && g[k] <= before.Keys
    ensures Spread(g, ancestors, available, remaining)
    ensures remaining.Keys == open.Keys - Elements(ready)
  {
    available, remaining, ancestors := before, open, doneBefore;
    for i := 0 to |ready|
      invariant Spread(g, ancestors, available, remaining)
      invariant before.Keys <= available.Keys
      invariant remaining.Keys == open.Keys - Elements(ready[..i])
    {
      var key := ready[i];
      assert key in ready && key !in ready[..i];
      var parents := remaining[key];
      ancestors := SpreadOne(g, ancestors, available, remaining, key);
      remaining := remaining - {key};
      available := available[key := OwnClosure(available, parents, key)];
      ElementsSnoc(ready, i);
    }
    assert ready[..|ready|] == ready;
  }

  lemma {:induction false} ElementsSnoc(s: seq<string>, i: nat)
    requires i < |s|
    ensures Elements(s[..i + 1]) == Elements(s[..i]) + {s[i]}
  {
    assert s[..i + 1] == s[..i] + [s[i]];
  }

  lemma {:induction false} WithSelf(parents: set<string>, ancestors: map<string, set<string>>, available: map<string, set<string>>, key: string)
    requires parents <= ancestors.Keys == available.Keys
    requires forall k :: k in available ==> available[k] == {k} + ancestors[k]
    ensures OwnClosure(available, parents, key) ==
            {key} + (parents + set d, p | d in parents && p in ancestors[d] :: p)
  {
    forall p | p in parents
      ensures p in available[p]
    {
    }
  }

  lemma {:induction false} SomeReady(g: Graph, ids: seq<string>, ancestors: map<string, set<string>>, remaining: Graph, ready: seq<string>)
    requires Closed(g) && !Cyclic(g) && Worked(g, ancestors, remaining) && remaining != map[]
    requires Distinct(ids) && Elements(ids) == g.Keys && ready == Ready(ids, remaining, ancestors.Keys)
    ensures ready != []
  {
    var k := AcyclicHasReady(g, remaining.Keys);
    assert g[k] <= ancestors.Keys by {
      assert forall d :: d in g[k] ==> d in g[k] * remaining.Keys || d in ancestors;
    }
    assert k in Elements(ids);
    assert k in ready;
  }

  // ---------------------------------------------------------------- the initial plan

  function VisualCandidate(k: nat): string {
    if k == 0 then "visual_foundation" else "visual_foundation_" + Decimal(k)
  }

  lemma {:induction false} VisualCandidatesDiffer()
    ensures Injective(VisualCandidate)
  {
    forall i: nat, j: nat | i != j
      ensures VisualCandidate(i) != VisualCandidate(j)
    {
      if i > 0 && j > 0 {
        assert VisualCandidate(i)[|"visual_foundation_"|..] == Decimal(i);
        assert VisualCandidate(j)[|"visual_foundation_"|..] == Decimal(j);
        if Decimal(i) == Decimal(j) {
          DecimalInjective(i, j);
        }
      }
    }
  }

  function Only(ids: seq<string>, keep: set<string>): (r: seq<string>)
    requires Distinct(ids)
    ensures Distinct(r) && Elements(r) == keep * Elements(ids)
  {
    if ids == [] then []
    else
      assert Distinct(ids[1..]) && ids[0] !in ids[1..];
      ElementsCons(ids[0], ids[1..]);
      assert ids == [ids[0]] + ids[1..];
      var rest := Only(ids[1..], keep);
      ElementsCons(ids[0], rest);
      assert ids[0] !in rest by { assert Elements(rest) <= Elements(ids[1..]); }
      if ids[0] in keep then [ids[0]] + rest else rest
  }

  // Texts of the criteria that name the feature and only requirements available to it.
  function CriterionTexts(criteria: seq<Criterion>, id: string, available: set<string>): seq<string> {
    if criteria == [] then []
    else
      (if id in criteria[0].sourceIds && Elements(criteria[0].sourceIds) <= available then [criteria[0].text] else [])
      + CriterionTexts(criteria[1..], id, available)
  }

  function VisualItem(spec: AppSpec, visualId: string): PlannedItem {
    PlannedItem(visualId, ItemIds(spec.features), [], "shared visual foundation", VisualFoundation, [], "",
                ["shared styles match the approved interface requirements"],
                ["theme, fonts, spacing and shared styles of the workspace"])
  }

  function FeatureItem(spec: AppSpec, feature: Item, visualId: string, parents: seq<string>, available: set<string>): PlannedItem {
    var texts := CriterionTexts(spec.acceptanceCriteria, feature.id, available);
    PlannedItem(feature.id, [feature.id], [], feature.text, Feature, [visualId] + parents,
                "implements the approved feature after its prerequisites",
                if texts == [] then [feature.text] else texts,
                ["source and integration checks of the approved feature"])
  }

  /**
   * What the proposal is: a visual foundation linked to every feature under an unused id, then one
   * item per approved feature in spec order, depending on the foundation and, in ascending order,
   * on exactly its prerequisites, with the criteria its closure covers as acceptance.
   */
  ghost predicate IsSuggestion(spec: AppSpec, g: Graph, items: seq<PlannedItem>, visualId: string) {
    && visualId !in FeatureIds(spec) && FirstFreeName(visualId, FeatureIds(spec))
    && |items| == 1 + |spec.features|
    && items[0] == VisualItem(spec, visualId)
    && forall i :: 0 <= i < |spec.features| ==> SuggestedFor(spec, g, spec.features[i], items[1 + i], visualId)
  }

  // The first of "visual_foundation", "visual_foundation_1", "visual_foundation_2", ... that is free.
  ghost predicate FirstFreeName(id: string, used: set<string>) {
    if "visual_foundation" !in used then id == "visual_foundation"
    else exists k: nat :: k > 0 && id == "visual_foundation_" + Decimal(k)
           && forall i: nat :: 0 < i < k ==> "visual_foundation_" + Decimal(i) in used
  }

  lemma {:induction false} FreshIsFirst(id: string, k: nat, used: set<string>)
    requires id == VisualCandidate(k) && id !in used && forall i: nat :: i < k ==> VisualCandidate(i) in used
    ensures FirstFreeName(id, used)
  {
    if k > 0 {
      assert VisualCandidate(0) in used;
      forall i: nat | 0 < i < k
        ensures "visual_foundation_" + Decimal(i) in used
      {
        assert VisualCandidate(i) in used;
      }
    }
  }

  ghost predicate SuggestedFor(spec: AppSpec, g: Graph, feature: Item, item: PlannedItem, visualId: string) {
    && feature.id in g
    && exists parents ::
         && Ascending(parents) && Distinct(parents) && Elements(parents) == g[feature.id]
         && item == FeatureItem(spec, feature, visualId, parents, {feature.id} + Prerequisites(g, feature.id))
  }

  function DesignGraph(spec: AppSpec, design: Option<Design>): Graph {
    RequirementGraph(FeatureIds(spec), if design.Some? then design.value.dependencies else [])
  }

  /**
   * Ends for every spec and design.  It fails with the design's error exactly when the design is
   * unsound; otherwise the proposal passes its own validator exactly when there is a feature to
   * build and the plan fits the item limit.
   */
  method SuggestedDeliveryPlan(spec: AppSpec, design: Option<Design>) returns (r: Result<seq<PlannedItem>, PlanError>)
    requires Distinct(ItemIds(spec.features))
    ensures r.Ok? <==>
              && spec.features != [] && |spec.features| < MAX_ITEMS
              && (design.Some? ==> SoundDesign(design.value, spec))
    ensures r.Err? && r.error.InvalidDesign? <==> design.Some? && !SoundDesign(design.value, spec)
    ensures r.Ok? ==> ValidPlan(spec, AllPending(r.value), design, None)
    ensures r.Ok? ==> exists visualId :: IsSuggestion(spec, DesignGraph(spec, design), r.value, visualId)
  {
    VisualCandidatesDiffer();
    var visualId;
    ghost var k;
    visualId, k := FreshId(VisualCandidate, FeatureIds(spec));
    FreshIsFirst(visualId, k, FeatureIds(spec));
    if design.Some? {
      var sound := ValidateRequirementDependencies(design.value, spec);
      if sound.Err? {
        return Err(InvalidDesign(sound.error));
      }
    }
    var dependencies := DesignGraph(spec, design);
    DesignGraphSound(spec, design);
    var available := CloseOver(ItemIds(spec.features), dependencies);
    var drafts := DraftItems(spec, dependencies, available, visualId);
    var items := [VisualItem(spec, visualId)] + drafts;
    DraftedIsSuggestion(spec, dependencies, drafts, visualId);
    if spec.features != [] && |spec.features| < MAX_ITEMS {
      SuggestionIsValid(spec, design, items, visualId);
    }
    var checked := ValidateDeliveryPlan(spec, AllPending(items), design, None);
    if checked.Err? {
      return Err(checked.error);
    }
    SuggestionNeedsRoom(spec, design, items);
    return Ok(items);
  }

  ghost predicate Drafted(spec: AppSpec, g: Graph, drafts: seq<PlannedItem>, visualId: string, n: nat)
    requires n <= |spec.features|
  {
    |drafts| == n && forall i :: 0 <= i < n ==> SuggestedFor(spec, g, spec.features[i], drafts[i], visualId)
  }

  lemma {:induction false} DraftedSnoc(spec: AppSpec, g: Graph, drafts: seq<PlannedItem>, visualId: string, item: PlannedItem)
    requires |drafts| < |spec.features| && Drafted(spec, g, drafts, visualId, |drafts|)
    requires SuggestedFor(spec, g, spec.features[|drafts|], item, visualId)
    ensures Drafted(spec, g, drafts + [item], visualId, |drafts| + 1)
  {
  }

  lemma {:induction false} DraftedIsSuggestion(spec: AppSpec, g: Graph, drafts: seq<PlannedItem>, visualId: string)
    requires Drafted(spec, g, drafts, visualId, |spec.features|) && visualId !in FeatureIds(spec)
    requires FirstFreeName(visualId, FeatureIds(spec))
    ensures IsSuggestion(spec, g, [VisualItem(spec, visualId)] + drafts, visualId)
  {
    var items := [VisualItem(spec, visualId)] + drafts;
    forall i | 0 <= i < |spec.features|
      ensures SuggestedFor(spec, g, spec.features[i], items[1 + i], visualId)
    {
      assert items[1 + i] == drafts[i];
    }
  }

  // The feature items of the proposal, in spec order.
  method DraftItems(spec: AppSpec, dependencies: Graph, available: map<string, set<string>>, visualId: string)
    returns (drafts: seq<PlannedItem>)
    requires Distinct(ItemIds(spec.features))
    requires Closed(dependencies) && dependencies.Keys == available.Keys == FeatureIds(spec)
    requires forall k :: k in dependencies ==> available[k] == {k} + Prerequisites(dependencies, k)
    ensures Drafted(spec, dependencies, drafts, visualId, |spec.features|)
  {
    drafts := [];
    while |drafts| < |spec.features|
      invariant |drafts| <= |spec.features|
      invariant Drafted(spec, dependencies, drafts, visualId, |drafts|)
    {
      var item := DraftItem(spec, dependencies, available, visualId, |drafts|);
      DraftedSnoc(spec, dependencies, drafts, visualId, item);
      drafts := drafts + [item];
    }
  }

  method DraftItem(spec: AppSpec, dependencies: Graph, available: map<string, set<string>>, visualId: string, i: nat)
    returns (item: PlannedItem)
    requires Distinct(ItemIds(spec.features)) && i < |spec.features|
    requires Closed(dependencies) && dependencies.Keys == available.Keys == FeatureIds(spec)
    requires forall k :: k in dependencies ==> available[k] == {k} + Prerequisites(dependencies, k)
    ensures SuggestedFor(spec, dependencies, spec.features[i], item, visualId)
  {
    var ids, feature := ItemIds(spec.features), spec.features[i];
    assert ids[i] == feature.id && feature.id in dependencies;
    var parents := Sorted(Only(ids, dependencies[feature.id]));
    SortedKeepsSet(Only(ids, dependencies[feature.id]));
    assert Elements(parents) == dependencies[feature.id];
    item := FeatureItem(spec, feature, visualId, parents, available[feature.id]);
  }

  lemma {:induction false} SortedKeepsSet(s: seq<string>)
    requires Distinct(s)
    ensures Ascending(Sorted(s)) && Distinct(Sorted(s)) && Elements(Sorted(s)) == Elements(s)
  {
    SortedAscending(s);
    var r := Sorted(s);
    forall x
      ensures x in r <==> x in s
    {
      assert x in r <==> x in multiset(r);
    }
    DistinctByMultiset(s, r);
  }

  lemma {:induction false} DesignGraphSound(spec: AppSpec, design: Option<Design>)
    requires design.Some? ==> SoundDesign(design.value, spec)
    ensures Closed(DesignGraph(spec, design)) && !Cyclic(DesignGraph(spec, design))
    ensures DesignGraph(spec, design).Keys == FeatureIds(spec)
  {
    var g := DesignGraph(spec, design);
    if design.None? {
      forall a
        ensures !Reaches(g, a, a)
      {
        ReachingNeedsAnEdge(g, a, a);
      }
    }
  }

  lemma {:induction false} SuggestionNeedsRoom(spec: AppSpec, design: Option<Design>, items: seq<PlannedItem>)
    requires |items| == 1 + |spec.features| && ValidPlan(spec, AllPending(items), design, None)
    ensures spec.features != [] && |spec.features| < MAX_ITEMS
  {
  }

  // The part of a proposal's shape that the validator looks at.
  ghost predicate Shaped(features: seq<string>, g: Graph, work: seq<WorkItem>, visualId: string) {
    && visualId !in features && Distinct(features)
    && Closed(g) && g.Keys == Elements(features)
    && |work| == 1 + |features|
    && work[0].plan.id == visualId && work[0].plan.kind.VisualFoundation? && work[0].plan.requirementIds == features
    && work[0].plan.provisions == [] && work[0].plan.dependsOn == []
    && forall i :: 0 <= i < |features| ==> ShapedAt(g, work[1 + i].plan, features[i], visualId)
  }

  ghost predicate ShapedAt(g: Graph, p: PlannedItem, id: string, visualId: string) {
    && p.id == id && p.kind.Feature? && p.requirementIds == [id] && p.provisions == []
    && id in g && Elements(p.dependsOn) == {visualId} + g[id]
  }

  lemma {:induction false} SuggestionShaped(spec: AppSpec, g: Graph, items: seq<PlannedItem>, visualId: string)
    requires Distinct(ItemIds(spec.features)) && IsSuggestion(spec, g, items, visualId)
    requires Closed(g) && g.Keys == FeatureIds(spec)
    ensures Shaped(ItemIds(spec.features), g, AllPending(items), visualId)
  {
    forall i | 0 <= i < |spec.features|
      ensures ShapedAt(g, items[1 + i], ItemIds(spec.features)[i], visualId)
    {
      FeatureAt(spec, g, spec.features[i], items[1 + i], visualId);
    }
  }

  lemma {:induction false} FeatureAt(spec: AppSpec, g: Graph, feature: Item, item: PlannedItem, visualId: string)
    requires SuggestedFor(spec, g, feature, item, visualId)
    ensures ShapedAt(g, item, feature.id, visualId)
  {
    var parents :| Ascending(parents) && Distinct(parents) && Elements(parents) == g[feature.id]
      && item == FeatureItem(spec, feature, visualId, parents, {feature.id} + Prerequisites(g, feature.id));
    ElementsCons(visualId, parents);
  }

  lemma {:induction false} ShapedIds(features: seq<string>, g: Graph, work: seq<WorkItem>, visualId: string)
    requires Shaped(features, g, work, visualId)
    ensures Ids(work) == [visualId] + features
    ensures Distinct(Ids(work))
    ensures Elements(Ids(work)) == {visualId} + Elements(features)
  {
    assert forall i :: 0 <= i < |features| ==> ShapedAt(g, work[1 + i].plan, features[i], visualId);
    assert Ids(work) == [visualId] + features;
    ElementsCons(visualId, features);
  }

  // The feature graph with one prerequisite-free node that every feature depends on.
  ghost predicate Rooted(h: Graph, g: Graph, root: string) {
    h.Keys == g.Keys + {root} && root !in g && h[root] == {} && forall k :: k in g ==> h[k] == g[k] + {root}
  }

  lemma {:induction false} ShapedEdges(features: seq<string>, g: Graph, work: seq<WorkItem>, visualId: string)
    requires Shaped(features, g, work, visualId)
    ensures Rooted(PlanGraph(work), g, visualId)
  {
    ShapedIds(features, g, work, visualId);
    ShapedRoot(features, g, work, visualId);
    var h := PlanGraph(work);
    assert h.Keys == {visualId} + Elements(features);
    ShapedEdgesAt(features, g, work, visualId, h);
    EdgesAreRooted(features, h, g, visualId);
  }

  lemma {:induction false} ShapedEdgesAt(features: seq<string>, g: Graph, work: seq<WorkItem>, visualId: string, h: Graph)
    requires Shaped(features, g, work, visualId) && h == PlanGraph(work) && Distinct(Ids(work))
    ensures forall i :: 0 <= i < |features| ==> EdgeAt(h, g, visualId, features[i])
  {
    forall i | 0 <= i < |features|
      ensures EdgeAt(h, g, visualId, features[i])
    {
      ShapedEdgeAt(features, g, work, visualId, i);
    }
  }

  ghost predicate EdgeAt(h: Graph, g: Graph, root: string, k: string) {
    k in g && k in h && h[k] == g[k] + {root}
  }

  lemma {:induction false} EdgesAreRooted(features: seq<string>, h: Graph, g: Graph, root: string)
    requires h.Keys == {root} + Elements(features) && g.Keys == Elements(features)
    requires root !in g && root in h && h[root] == {}
    requires forall i :: 0 <= i < |features| ==> EdgeAt(h, g, root, features[i])
    ensures Rooted(h, g, root)
  {
    forall k | k in g
      ensures EdgeAt(h, g, root, k)
    {
      assert k in Elements(features);
    }
  }

  lemma {:induction false} ShapedRoot(features: seq<string>, g: Graph, work: seq<WorkItem>, visualId: string)
    requires Shaped(features, g, work, visualId) && Distinct(Ids(work))
    ensures visualId in PlanGraph(work) && PlanGraph(work)[visualId] == {} && visualId !in g
  {
    PlanGraphAt(work, 0);
  }

  lemma {:induction false} ShapedEdgeAt(features: seq<string>, g: Graph, work: seq<WorkItem>, visualId: string, i: nat)
    requires Shaped(features, g, work, visualId) && i < |features| && Distinct(Ids(work))
    ensures EdgeAt(PlanGraph(work), g, visualId, features[i])
  {
    assert ShapedAt(g, work[1 + i].plan, features[i], visualId);
    PlanGraphAt(work, 1 + i);
  }

  lemma {:induction false} RootedClosed(h: Graph, g: Graph, root: string)
    requires Rooted(h, g, root) && Closed(g)
    ensures Closed(h)
  {
  }

  lemma {:induction false} ShapedLinkedAt(features: seq<string>, g: Graph, work: seq<WorkItem>, visualId: string, i: nat)
    requires Shaped(features, g, work, visualId) && !Cyclic(g) && i < |features|
    ensures Linked(work[1 + i].plan, Elements(features), {visualId} + Elements(features), false)
  {
    assert ShapedAt(g, work[1 + i].plan, features[i], visualId);
    var k := features[i];
    if k in g[k] {
      ReachesDirect(g, k, k);
    }
    assert Elements([k]) == {k};
  }

  lemma {:induction false} ShapedLinked(spec: AppSpec, g: Graph, work: seq<WorkItem>, visualId: string)
    requires Shaped(ItemIds(spec.features), g, work, visualId) && spec.features != [] && !Cyclic(g)
    ensures AllLinked(spec, work, false)
  {
    ShapedIds(ItemIds(spec.features), g, work, visualId);
    forall j | 0 <= j < |work|
      ensures Linked(work[j].plan, FeatureIds(spec), {visualId} + FeatureIds(spec), false)
    {
      if j > 0 {
        ShapedLinkedAt(ItemIds(spec.features), g, work, visualId, j - 1);
      }
    }
  }

  lemma {:induction false} ShapedRestsOnVisual(features: seq<string>, g: Graph, work: seq<WorkItem>, h: Graph, visualId: string, i: nat)
    requires Shaped(features, g, work, visualId) && Rooted(h, g, visualId) && i < |features|
    ensures RestsOnVisual(work, h, work[1 + i])
  {
    RootedClosed(h, g, visualId);
    assert ShapedAt(g, work[1 + i].plan, features[i], visualId);
    ReachesDirect(h, features[i], visualId);
    assert work[0].plan.kind.VisualFoundation? && Reaches(h, work[1 + i].plan.id, work[0].plan.id);
  }

  lemma {:induction false} ShapedRestsOnPrerequisite(
      features: seq<string>, g: Graph, work: seq<WorkItem>, h: Graph, visualId: string, i: nat, prerequisite: string)
    requires Shaped(features, g, work, visualId) && Rooted(h, g, visualId)
    requires i < |features| && features[i] in g && prerequisite in g[features[i]]
    ensures RestsOnPrerequisite(work, h, work[1 + i], prerequisite)
  {
    RootedClosed(h, g, visualId);
    assert ShapedAt(g, work[1 + i].plan, features[i], visualId);
    var j :| 0 <= j < |features| && features[j] == prerequisite;
    assert ShapedAt(g, work[1 + j].plan, features[j], visualId);
    ReachesDirect(h, features[i], prerequisite);
    assert Supplies(work[1 + j].plan, prerequisite);
    assert Reaches(h, work[1 + i].plan.id, work[1 + j].plan.id);
  }

  lemma {:induction false} ShapedCoversFeatures(spec: AppSpec, g: Graph, work: seq<WorkItem>, visualId: string)
    requires Shaped(ItemIds(spec.features), g, work, visualId)
    ensures Covers(spec, work)
  {
    var features := ItemIds(spec.features);
    forall f | f in FeatureIds(spec)
      ensures CoveredBy(work, f)
    {
      var i :| 0 <= i < |features| && features[i] == f;
      assert ShapedAt(g, work[1 + i].plan, features[i], visualId);
      assert work[1 + i].plan.kind.Feature? && f in work[1 + i].plan.requirementIds;
    }
  }

  lemma {:induction false} ShapedMeetsDesign(spec: AppSpec, design: Design, work: seq<WorkItem>, h: Graph, visualId: string, d: Dependency, i: nat)
    requires Shaped(ItemIds(spec.features), DesignGraph(spec, Some(design)), work, visualId)
    requires Rooted(h, DesignGraph(spec, Some(design)), visualId) && SoundDesign(design, spec)
    requires d in design.dependencies && i < |work| && OpenFeature(work[i]) && d.dependent in work[i].plan.requirementIds
    ensures RestsOnPrerequisite(work, h, work[i], d.prerequisite)
  {
    var g, features := DesignGraph(spec, Some(design)), ItemIds(spec.features);
    assert ShapedAt(g, work[1 + (i - 1)].plan, features[i - 1], visualId);
    assert d.prerequisite in g[d.dependent];
    ShapedRestsOnPrerequisite(features, g, work, h, visualId, i - 1, d.prerequisite);
  }

  lemma {:induction false} ShapedCovers(spec: AppSpec, design: Option<Design>, work: seq<WorkItem>, visualId: string)
    requires Shaped(ItemIds(spec.features), DesignGraph(spec, design), work, visualId)
    requires design.Some? ==> SoundDesign(design.value, spec)
    ensures ValidCoverage(spec, work, design)
  {
    var g, features, h := DesignGraph(spec, design), ItemIds(spec.features), PlanGraph(work);
    ShapedEdges(features, g, work, visualId);
    ShapedCoversFeatures(spec, g, work, visualId);
    assert work[0].plan.kind.VisualFoundation?;
    forall i | 0 <= i < |work| && OpenFeature(work[i])
      ensures RestsOnVisual(work, h, work[i])
    {
      ShapedRestsOnVisual(features, g, work, h, visualId, i - 1);
    }
    if design.Some? {
      forall d, i | d in design.value.dependencies && 0 <= i < |work| && OpenFeature(work[i])
                    && d.dependent in work[i].plan.requirementIds
        ensures RestsOnPrerequisite(work, h, work[i], d.prerequisite)
      {
        ShapedMeetsDesign(spec, design.value, work, h, visualId, d, i);
      }
    }
  }

  /** A proposal drawn from a sound design is a valid plan. */
  lemma {:induction false} SuggestionIsValid(spec: AppSpec, design: Option<Design>, items: seq<PlannedItem>, visualId: string)
    requires Distinct(ItemIds(spec.features)) && IsSuggestion(spec, DesignGraph(spec, design), items, visualId)
    requires design.Some? ==> SoundDesign(design.value, spec)
    requires spec.features != [] && |spec.features| < MAX_ITEMS
    ensures ValidPlan(spec, AllPending(items), design, None)
  {
    var g := DesignGraph(spec, design);
    DesignGraphSound(spec, design);
    SuggestionShaped(spec, g, items, visualId);
    ShapedIsValid(spec, design, AllPending(items), visualId);
  }

  lemma {:induction false} ShapedIsValid(spec: AppSpec, design: Option<Design>, work: seq<WorkItem>, visualId: string)
    requires Shaped(ItemIds(spec.features), DesignGraph(spec, design), work, visualId)
    requires !Cyclic(DesignGraph(spec, design)) && (design.Some? ==> SoundDesign(design.value, spec))
    requires spec.features != [] && |spec.features| < MAX_ITEMS
    ensures ValidPlan(spec, work, design, None)
  {
    var g, features := DesignGraph(spec, design), ItemIds(spec.features);
    assert features[0] in FeatureIds(spec);
    ShapedIds(features, g, work, visualId);
    ShapedLinked(spec, g, work, visualId);
    ShapedAcyclic(features, g, work, visualId);
    ShapedCovers(spec, design, work, visualId);
  }

  lemma {:induction false} ShapedAcyclic(features: seq<string>, g: Graph, work: seq<WorkItem>, visualId: string)
    requires Shaped(features, g, work, visualId) && !Cyclic(g)
    ensures !Cyclic(PlanGraph(work))
  {
    ShapedEdges(features, g, work, visualId);
    RootedAcyclic(PlanGraph(work), g, visualId);
  }

  lemma {:induction false} RootedAcyclic(h: Graph, g: Graph, root: string)
    requires Rooted(h, g, root) && !Cyclic(g)
    ensures !Cyclic(h)
  {
    CycleAvoidsRoots(h, g, {root});
  }
}
