/**
 * What the proposed delivery plan says, item by item: names, links, dependencies and acceptance in
 * terms of the specification and the edges of the design.
 */
module ProposedPlans {
  import opened Results
  import opened Graphs
  import opened AppSpecs
  import opened SystemDesigns
  import opened Texts
  import opened DeliveryPlans
  import opened DeliverySuggestions

  // The design wants one feature directly before the other.
  ghost predicate Wanted(design: Option<Design>, dependent: string, prerequisite: string) {
    design.Some? && exists h :: 0 <= h < |design.value.dependencies| && IsEdge(design.value.dependencies[h], dependent, prerequisite)
  }

  predicate IsEdge(d: Dependency, dependent: string, prerequisite: string) {
    d.dependent == dependent && d.prerequisite == prerequisite
  }

  ghost predicate Chain(design: Option<Design>, p: seq<string>) {
    |p| >= 2 && forall k :: 0 <= k < |p| - 1 ==> Wanted(design, p[k], p[k + 1])
  }

  // ... or over other features.
  ghost predicate WantedFirst(design: Option<Design>, dependent: string, prerequisite: string) {
    exists p :: Chain(design, p) && p[0] == dependent && p[|p| - 1] == prerequisite
  }

  // The criterion is about the feature and otherwise only about what is there before it.
  ghost predicate Concerns(design: Option<Design>, c: Criterion, id: string) {
    id in c.sourceIds && forall x :: x in c.sourceIds ==> x == id || WantedFirst(design, id, x)
  }

  // The texts of exactly these criteria, in their order.
  ghost predicate Listed(design: Option<Design>, criteria: seq<Criterion>, id: string, texts: seq<string>, keep: seq<int>) {
    && |keep| == |texts| && (forall a, b :: 0 <= a < b < |keep| ==> keep[a] < keep[b])
    && (forall a :: 0 <= a < |keep| ==> 0 <= keep[a] < |criteria| && texts[a] == criteria[keep[a]].text)
    && (forall j :: 0 <= j < |criteria| ==> (j in keep <==> Concerns(design, criteria[j], id)))
  }

  ghost predicate AcceptedBy(spec: AppSpec, design: Option<Design>, feature: Item, texts: seq<string>) {
    if exists j :: 0 <= j < |spec.acceptanceCriteria| && Concerns(design, spec.acceptanceCriteria[j], feature.id)
    then exists keep :: Listed(design, spec.acceptanceCriteria, feature.id, texts, keep)
    else texts == [feature.text]
  }

  // The item of one feature: it waits for the foundation and, in ascending order, for exactly the
  // features that the design wants directly before it.
  ghost predicate ProposedFeature(spec: AppSpec, design: Option<Design>, feature: Item, visualId: string, item: PlannedItem) {
    && item.id == feature.id && item.title == feature.text && item.kind == Feature
    && item.requirementIds == [feature.id] && item.provisions == [] && item.deliverables != []
    && item.dependsOn != [] && item.dependsOn[0] == visualId
    && (forall x :: x in item.dependsOn[1..] <==> Wanted(design, feature.id, x))
    && (forall a, b :: 1 <= a < b < |item.dependsOn| ==>
          LexLeq(item.dependsOn[a], item.dependsOn[b]) && item.dependsOn[a] != item.dependsOn[b])
    && AcceptedBy(spec, design, feature, item.acceptance)
  }

  // The foundation is linked to every feature, provides nothing and waits for nothing.
  ghost predicate ProposedFoundation(spec: AppSpec, item: PlannedItem) {
    && item.kind == VisualFoundation && item.provisions == [] && item.dependsOn == []
    && item.acceptance != [] && item.deliverables != []
    && |item.requirementIds| == |spec.features|
    && (forall i :: 0 <= i < |spec.features| ==> item.requirementIds[i] == spec.features[i].id && item.id != spec.features[i].id)
    && FirstFreeName(item.id, set i | 0 <= i < |spec.features| :: spec.features[i].id)
  }

  ghost predicate Proposed(spec: AppSpec, design: Option<Design>, items: seq<PlannedItem>) {
    && |items| == 1 + |spec.features| && ProposedFoundation(spec, items[0])
    && forall i :: 0 <= i < |spec.features| ==> ProposedFeature(spec, design, spec.features[i], items[0].id, items[1 + i])
  }

  // ---------------------------------------------------------------- the design's edges as a graph

  lemma {:induction false} EdgeIff(spec: AppSpec, design: Option<Design>, a: string, b: string)
    requires design.Some? ==> SoundDesign(design.value, spec)
    ensures Wanted(design, a, b) <==> a in DesignGraph(spec, design) && b in DesignGraph(spec, design)[a]
    ensures Wanted(design, a, b) ==> b in DesignGraph(spec, design)
  {
    if Wanted(design, a, b) {
      var h :| 0 <= h < |design.value.dependencies| && IsEdge(design.value.dependencies[h], a, b);
      assert design.value.dependencies[h] in design.value.dependencies;
    }
    if design.Some? && a in DesignGraph(spec, design) && b in DesignGraph(spec, design)[a] {
      var e :| e in design.value.dependencies && e.dependent == a && e.prerequisite == b;
      var h :| 0 <= h < |design.value.dependencies| && design.value.dependencies[h] == e;
      assert IsEdge(design.value.dependencies[h], a, b);
    }
  }

  lemma {:induction false} ChainIff(spec: AppSpec, design: Option<Design>, p: seq<string>)
    requires (design.Some? ==> SoundDesign(design.value, spec)) && |p| >= 2
    ensures Chain(design, p) <==> IsPath(DesignGraph(spec, design), p)
  {
    var g := DesignGraph(spec, design);
    forall k | 0 <= k < |p| - 1
      ensures Wanted(design, p[k], p[k + 1]) <==> p[k] in g && p[k + 1] in g[p[k]]
      ensures Wanted(design, p[k], p[k + 1]) ==> p[k + 1] in g
    {
      EdgeIff(spec, design, p[k], p[k + 1]);
    }
    if Chain(design, p) {
      forall k | 0 <= k < |p|
        ensures p[k] in g
      {
        if k < |p| - 1 {
          assert Wanted(design, p[k], p[k + 1]);
        } else {
          assert Wanted(design, p[k - 1], p[k - 1 + 1]);
        }
      }
    }
  }

  lemma {:induction false} FirstIff(spec: AppSpec, design: Option<Design>, a: string, b: string)
    requires design.Some? ==> SoundDesign(design.value, spec)
    ensures WantedFirst(design, a, b) <==> Reaches(DesignGraph(spec, design), a, b)
  {
    if WantedFirst(design, a, b) {
      var p :| Chain(design, p) && p[0] == a && p[|p| - 1] == b;
      ChainIff(spec, design, p);
      assert PathFrom(DesignGraph(spec, design), a, b, p);
    }
    if Reaches(DesignGraph(spec, design), a, b) {
      var p :| PathFrom(DesignGraph(spec, design), a, b, p);
      ChainIff(spec, design, p);
    }
  }

  lemma {:induction false} AvailableIff(spec: AppSpec, design: Option<Design>, id: string, x: string)
    requires design.Some? ==> SoundDesign(design.value, spec)
    ensures x in {id} + Prerequisites(DesignGraph(spec, design), id) <==> x == id || WantedFirst(design, id, x)
  {
    FirstIff(spec, design, id, x);
    if Reaches(DesignGraph(spec, design), id, x) {
      ReachesInGraph(DesignGraph(spec, design), id, x);
    }
  }

  lemma {:induction false} ConcernsIff(spec: AppSpec, design: Option<Design>, c: Criterion, id: string)
    requires design.Some? ==> SoundDesign(design.value, spec)
    ensures Concerns(design, c, id) <==>
            id in c.sourceIds && Elements(c.sourceIds) <= {id} + Prerequisites(DesignGraph(spec, design), id)
  {
    forall x
      ensures x in {id} + Prerequisites(DesignGraph(spec, design), id) <==> x == id || WantedFirst(design, id, x)
    {
      AvailableIff(spec, design, id, x);
    }
  }

  // ---------------------------------------------------------------- the acceptance texts

  ghost predicate Kept(criteria: seq<Criterion>, id: string, available: set<string>, texts: seq<string>, keep: seq<int>) {
    && |keep| == |texts| && (forall a, b :: 0 <= a < b < |keep| ==> keep[a] < keep[b])
    && (forall a :: 0 <= a < |keep| ==> 0 <= keep[a] < |criteria| && texts[a] == criteria[keep[a]].text)
    && (forall j :: 0 <= j < |criteria| ==>
          (j in keep <==> id in criteria[j].sourceIds && Elements(criteria[j].sourceIds) <= available))
  }

  lemma {:induction false} TextsAreKept(criteria: seq<Criterion>, id: string, available: set<string>) returns (keep: seq<int>)
    ensures Kept(criteria, id, available, CriterionTexts(criteria, id, available), keep)
  {
    keep := [];
    if criteria != [] {
      var c, rest := criteria[0], criteria[1..];
      var later := TextsAreKept(rest, id, available);
      var shifted := seq(|later|, a requires 0 <= a < |later| => later[a] + 1);
      KeptLater(criteria, id, available, later, shifted);
      keep := (if id in c.sourceIds && Elements(c.sourceIds) <= available then [0] else []) + shifted;
      KeptFirst(criteria, id, available, shifted, keep);
    }
  }

  // The kept positions behind the first criterion.
  ghost predicate KeptBehind(criteria: seq<Criterion>, id: string, available: set<string>, texts: seq<string>, keep: seq<int>) {
    && |keep| == |texts| && (forall a, b :: 0 <= a < b < |keep| ==> keep[a] < keep[b])
    && (forall a :: 0 <= a < |keep| ==> 1 <= keep[a] < |criteria| && texts[a] == criteria[keep[a]].text)
    && (forall j :: 1 <= j < |criteria| ==>
          (j in keep <==> id in criteria[j].sourceIds && Elements(criteria[j].sourceIds) <= available))
  }

  lemma {:induction false} KeptLater(criteria: seq<Criterion>, id: string, available: set<string>, later: seq<int>, shifted: seq<int>)
    requires criteria != [] && Kept(criteria[1..], id, available, CriterionTexts(criteria[1..], id, available), later)
    requires |shifted| == |later| && forall a :: 0 <= a < |later| ==> shifted[a] == later[a] + 1
    ensures KeptBehind(criteria, id, available, CriterionTexts(criteria[1..], id, available), shifted)
  {
    forall j | 1 <= j < |criteria|
      ensures j in shifted <==> id in criteria[j].sourceIds && Elements(criteria[j].sourceIds) <= available
    {
      assert criteria[1..][j - 1] == criteria[j];
      if j in shifted {
        var a :| 0 <= a < |shifted| && shifted[a] == j;
        assert later[a] == j - 1 && later[a] in later;
      }
      if j - 1 in later {
        var a :| 0 <= a < |later| && later[a] == j - 1;
        assert shifted[a] == j;
      }
    }
  }

  lemma {:induction false} KeptFirst(criteria: seq<Criterion>, id: string, available: set<string>, behind: seq<int>, keep: seq<int>)
    requires criteria != [] && KeptBehind(criteria, id, available, CriterionTexts(criteria[1..], id, available), behind)
    requires var c := criteria[0];
             keep == (if id in c.sourceIds && Elements(c.sourceIds) <= available then [0] else []) + behind
    ensures Kept(criteria, id, available, CriterionTexts(criteria, id, available), keep)
  {
    var c, later := criteria[0], CriterionTexts(criteria[1..], id, available);
    if id in c.sourceIds && Elements(c.sourceIds) <= available {
      assert CriterionTexts(criteria, id, available) == [c.text] + later;
      KeptWithFirst(criteria, id, available, later, behind);
    } else {
      assert [] + behind == behind && [] + later == later;
      KeptWithoutFirst(criteria, id, available, later, behind);
    }
  }

  lemma {:induction false} KeptWithFirst(criteria: seq<Criterion>, id: string, available: set<string>, later: seq<string>, behind: seq<int>)
    requires criteria != [] && KeptBehind(criteria, id, available, later, behind)
    requires id in criteria[0].sourceIds && Elements(criteria[0].sourceIds) <= available
    ensures Kept(criteria, id, available, [criteria[0].text] + later, [0] + behind)
  {
    var keep := [0] + behind;
    assert forall a :: 1 <= a < |keep| ==> keep[a] == behind[a - 1];
    forall j | 0 <= j < |criteria|
      ensures j in keep <==> id in criteria[j].sourceIds && Elements(criteria[j].sourceIds) <= available
    {
      assert j in keep <==> j == 0 || j in behind;
    }
  }

  lemma {:induction false} KeptWithoutFirst(criteria: seq<Criterion>, id: string, available: set<string>, later: seq<string>, behind: seq<int>)
    requires criteria != [] && KeptBehind(criteria, id, available, later, behind)
    requires !(id in criteria[0].sourceIds && Elements(criteria[0].sourceIds) <= available)
    ensures Kept(criteria, id, available, later, behind)
  {
    assert forall a :: 0 <= a < |behind| ==> behind[a] >= 1;
    assert 0 !in behind;
  }

  lemma {:induction false} AcceptanceListed(spec: AppSpec, design: Option<Design>, feature: Item)
    requires design.Some? ==> SoundDesign(design.value, spec)
    ensures var available := {feature.id} + Prerequisites(DesignGraph(spec, design), feature.id);
            var texts := CriterionTexts(spec.acceptanceCriteria, feature.id, available);
            AcceptedBy(spec, design, feature, if texts == [] then [feature.text] else texts)
  {
    var criteria := spec.acceptanceCriteria;
    var available := {feature.id} + Prerequisites(DesignGraph(spec, design), feature.id);
    var texts := CriterionTexts(criteria, feature.id, available);
    var keep := TextsAreKept(criteria, feature.id, available);
    forall j | 0 <= j < |criteria|
      ensures Concerns(design, criteria[j], feature.id) <==>
              feature.id in criteria[j].sourceIds && Elements(criteria[j].sourceIds) <= available
    {
      ConcernsIff(spec, design, criteria[j], feature.id);
    }
    assert Listed(design, criteria, feature.id, texts, keep);
    if keep != [] {
      assert keep[0] in keep && Concerns(design, criteria[keep[0]], feature.id);
    }
  }

  // ---------------------------------------------------------------- the whole proposal

  lemma {:induction false} SuggestedIsProposed(spec: AppSpec, design: Option<Design>, feature: Item, item: PlannedItem, visualId: string)
    requires design.Some? ==> SoundDesign(design.value, spec)
    requires SuggestedFor(spec, DesignGraph(spec, design), feature, item, visualId)
    ensures ProposedFeature(spec, design, feature, visualId, item)
  {
    var g := DesignGraph(spec, design);
    var parents :| Ascending(parents) && Distinct(parents) && Elements(parents) == g[feature.id]
      && item == FeatureItem(spec, feature, visualId, parents, {feature.id} + Prerequisites(g, feature.id));
    assert item.dependsOn[1..] == parents;
    forall x
      ensures x in parents <==> Wanted(design, feature.id, x)
    {
      EdgeIff(spec, design, feature.id, x);
      assert x in parents <==> x in Elements(parents);
    }
    forall a, b | 1 <= a < b < |item.dependsOn|
      ensures LexLeq(item.dependsOn[a], item.dependsOn[b]) && item.dependsOn[a] != item.dependsOn[b]
    {
      assert item.dependsOn[a] == parents[a - 1] && item.dependsOn[b] == parents[b - 1];
    }
    AcceptanceListed(spec, design, feature);
  }

  /**
   * The proposal in plain terms: the foundation under the first free name, then one item per feature
   * in spec order, waiting for the foundation and for exactly what the design wants directly before
   * it, and accepted by the criteria that concern only it and what the design wants first.
   */
  lemma {:induction false} SuggestionIsProposal(spec: AppSpec, design: Option<Design>, items: seq<PlannedItem>, visualId: string)
    requires design.Some? ==> SoundDesign(design.value, spec)
    requires IsSuggestion(spec, DesignGraph(spec, design), items, visualId)
    ensures Proposed(spec, design, items)
  {
    forall i | 0 <= i < |spec.features|
      ensures ProposedFeature(spec, design, spec.features[i], visualId, items[1 + i])
    {
      SuggestedIsProposed(spec, design, spec.features[i], items[1 + i], visualId);
    }
    FoundationIsProposed(spec, visualId);
  }

  lemma {:induction false} FoundationIsProposed(spec: AppSpec, visualId: string)
    requires visualId !in FeatureIds(spec) && FirstFreeName(visualId, FeatureIds(spec))
    ensures ProposedFoundation(spec, VisualItem(spec, visualId)) && VisualItem(spec, visualId).id == visualId
  {
    FeatureIdsAre(spec);
    forall i | 0 <= i < |spec.features|
      ensures visualId != spec.features[i].id
    {
      assert ItemIds(spec.features)[i] == spec.features[i].id;
    }
  }

  lemma {:induction false} FeatureIdsAre(spec: AppSpec)
    ensures FeatureIds(spec) == set i | 0 <= i < |spec.features| :: spec.features[i].id
  {
    var ids := ItemIds(spec.features);
    forall x
      ensures x in ids <==> x in set i | 0 <= i < |spec.features| :: spec.features[i].id
    {
      if x in ids {
        var i :| 0 <= i < |ids| && ids[i] == x;
      }
      if i :| 0 <= i < |spec.features| && spec.features[i].id == x {
        assert ids[i] == x;
      }
    }
  }
}
