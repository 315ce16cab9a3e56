/** The requirement links of a system design and their check, schemas/system_design.py. */
module SystemDesigns {
  import opened Results
  import opened Graphs
  import opened AppSpecs

  datatype Capability = Capability(id: string, requirementIds: seq<string>)

  datatype Dependency = Dependency(prerequisite: string, dependent: string, reason: string)

  datatype Design = Design(capabilities: seq<Capability>, dependencies: seq<Dependency>)

  datatype DesignError = RepeatedCapability | BadCapabilityLink | BadDependency | CyclicDesign

  ghost predicate CapabilitiesLinked(capabilities: seq<Capability>, ids: set<string>) {
    && (forall i, j :: 0 <= i < j < |capabilities| ==> capabilities[i].id != capabilities[j].id)
    && (forall i :: 0 <= i < |capabilities| ==>
          Distinct(capabilities[i].requirementIds) && Elements(capabilities[i].requirementIds) <= ids)
  }

  ghost predicate DependenciesLinked(dependencies: seq<Dependency>, ids: set<string>) {
    forall i :: 0 <= i < |dependencies| ==>
      && dependencies[i].prerequisite in ids && dependencies[i].dependent in ids
      && dependencies[i].prerequisite != dependencies[i].dependent
  }

  // The prerequisite graph over the approved features.
  function RequirementGraph(ids: set<string>, dependencies: seq<Dependency>): Graph {
    map k | k in ids :: set e | e in dependencies && e.dependent == k :: e.prerequisite
  }

  ghost predicate SoundDesign(design: Design, spec: AppSpec) {
    && CapabilitiesLinked(design.capabilities, FeatureIds(spec))
    && DependenciesLinked(design.dependencies, FeatureIds(spec))
    && !Cyclic(RequirementGraph(FeatureIds(spec), design.dependencies))
  }

  /**
   * Accepts exactly the designs whose links name approved features and whose prerequisite graph
   * has no cycle; a design is called cyclic exactly when its links are fine and it has a cycle.
   */
  method ValidateRequirementDependencies(design: Design, spec: AppSpec) returns (r: Result<(), DesignError>)
    ensures r.Ok? <==> SoundDesign(design, spec)
    ensures r.Err? && r.error == CyclicDesign <==>
              && CapabilitiesLinked(design.capabilities, FeatureIds(spec))
              && DependenciesLinked(design.dependencies, FeatureIds(spec))
              && Cyclic(RequirementGraph(FeatureIds(spec), design.dependencies))
    ensures r.Err? && r.error == BadDependency <==>
              && CapabilitiesLinked(design.capabilities, FeatureIds(spec))
              && !DependenciesLinked(design.dependencies, FeatureIds(spec))
  {
    var ids := FeatureIds(spec);
    var linked := SelectCapabilities(design.capabilities, ids);
    if linked.Some? {
      return Err(linked.value);
    }
    var edges := CollectEdges(design.dependencies, ids);
    if edges.None? {
      return Err(BadDependency);
    }
    var acyclic := PeelLayers(edges.value);
    return if acyclic then Ok(()) else Err(CyclicDesign);
  }

  // The first phase: each capability at most once, linked to distinct approved features.
  method SelectCapabilities(capabilities: seq<Capability>, ids: set<string>) returns (error: Option<DesignError>)
    ensures error.None? <==> CapabilitiesLinked(capabilities, ids)
    ensures error.Some? ==> error.value == RepeatedCapability || error.value == BadCapabilityLink
  {
    var selected: set<string> := {};
    for i := 0 to |capabilities|
      invariant CapabilitiesLinked(capabilities[..i], ids)
      invariant selected == set k | 0 <= k < i :: capabilities[k].id
    {
      var capability := capabilities[i];
      if capability.id in selected {
        return Some(RepeatedCapability);
      }
      selected := selected + {capability.id};
      if !Distinct(capability.requirementIds) || !(Elements(capability.requirementIds) <= ids) {
        return Some(BadCapabilityLink);
      }
    }
    assert capabilities[..|capabilities|] == capabilities;
    return None;
  }

  // The second phase: the prerequisite sets, unless some dependency is badly linked.
  method CollectEdges(dependencies: seq<Dependency>, ids: set<string>) returns (edges: Option<Graph>)
    ensures edges.Some? <==> DependenciesLinked(dependencies, ids)
    ensures edges.Some? ==> edges.value == RequirementGraph(ids, dependencies) && Closed(edges.value)
  {
    var g: Graph := map k | k in ids :: {};
    assert g == RequirementGraph(ids, dependencies[..0]) by {
      forall k | k in ids
        ensures (set e | e in dependencies[..0] && e.dependent == k :: e.prerequisite) == {}
      {
      }
    }
    for i := 0 to |dependencies|
      invariant DependenciesLinked(dependencies[..i], ids)
      invariant g == RequirementGraph(ids, dependencies[..i])
    {
      var e := dependencies[i];
      if e.prerequisite !in ids || e.dependent !in ids || e.prerequisite == e.dependent {
        return None;
      }
      RequirementGraphSnoc(ids, dependencies[..i], e);
      g := g[e.dependent := g[e.dependent] + {e.prerequisite}];
      assert dependencies[..i + 1] == dependencies[..i] + [e];
    }
    assert dependencies[..|dependencies|] == dependencies;
    return Some(g);
  }

  // The third phase: takes off the nodes without open prerequisites, layer by layer.
  method PeelLayers(g: Graph) returns (acyclic: bool)
    requires Closed(g)
    ensures acyclic <==> !Cyclic(g)
  {
    var edges := g;
    ghost var peeled: set<string> := {};
    NothingPeeled(g);
    while edges != map[]
      invariant Peeled(g, peeled, edges)
      decreases |edges|
    {
      var ready := set k | k in edges && edges[k] == {};
      if ready == {} {
        NothingToPeel(g, peeled, edges);
        return false;
      }
      PeelStep(g, peeled, edges, ready);
      edges := map k | k in edges && k !in ready :: edges[k] - ready;
      peeled := peeled + ready;
    }
    AllPeeled(g, peeled, edges);
    return true;
  }

  // The open part of the graph after some layers are off.
  ghost predicate Peeled(g: Graph, peeled: set<Node>, edges: Graph) {
    && peeled <= g.Keys && edges.Keys == g.Keys - peeled
    && (forall k :: k in edges ==> edges[k] == g[k] - peeled)
    && DownClosed(g, peeled) && AcyclicOn(g, peeled)
  }

  lemma {:induction false} PeelStep(g: Graph, peeled: set<Node>, edges: Graph, ready: set<Node>)
    requires Closed(g) && Peeled(g, peeled, edges)
    requires ready == (set k | k in edges && edges[k] == {}) && ready != {}
    ensures var rest := map k | k in edges && k !in ready :: edges[k] - ready;
            Peeled(g, peeled + ready, rest) && |rest| < |edges|
  {
    var rest := map k | k in edges && k !in ready :: edges[k] - ready;
    forall k | k in ready
      ensures g[k] <= peeled
    {
      assert forall d :: d in g[k] ==> d in g[k] - peeled || d in peeled;
    }
    ExtendAcyclic(g, peeled, ready);
    assert rest.Keys == edges.Keys - ready;
    assert |edges.Keys| == |rest.Keys| + |ready|;
  }

  lemma {:induction false} NothingPeeled(g: Graph)
    ensures Peeled(g, {}, g)
  {
    assert forall k :: k in g ==> g[k] - {} == g[k];
  }

  lemma {:induction false} AllPeeled(g: Graph, peeled: set<Node>, edges: Graph)
    requires Peeled(g, peeled, edges) && edges == map[]
    ensures !Cyclic(g)
  {
    assert peeled == g.Keys;
    AcyclicOnAll(g);
  }

  lemma {:induction false} NothingToPeel(g: Graph, peeled: set<Node>, edges: Graph)
    requires Closed(g) && Peeled(g, peeled, edges)
    requires edges != map[] && forall k :: k in edges ==> edges[k] != {}
    ensures Cyclic(g)
  {
    forall k | k in edges
      ensures g[k] * edges.Keys != {}
    {
      var d :| d in edges[k];
      assert d in g[k] && d in edges.Keys;
    }
    StuckSetHasCycle(g, edges.Keys);
  }

  lemma {:induction false} RequirementGraphSnoc(ids: set<string>, dependencies: seq<Dependency>, e: Dependency)
    requires e.dependent in ids
    ensures var g := RequirementGraph(ids, dependencies);
            RequirementGraph(ids, dependencies + [e]) == g[e.dependent := g[e.dependent] + {e.prerequisite}]
  {
    var g, h := RequirementGraph(ids, dependencies), RequirementGraph(ids, dependencies + [e]);
    forall k | k in ids
      ensures h[k] == if k == e.dependent then g[k] + {e.prerequisite} else g[k]
    {
      assert forall d :: d in dependencies + [e] <==> d in dependencies || d == e;
    }
  }
}
