/**
 * Finite dependency graphs: a map from each node to the set of its direct prerequisites.
 * Reachability is by paths and a cycle is a path back to its start; nothing here refers to the
 * worklist algorithms that DeliveryPlan and SystemDesign prove against these definitions.
 */
module Graphs {
  type Node = string
  type Graph = map<Node, set<Node>>

  ghost predicate Closed(g: Graph) {
    forall k :: k in g ==> g[k] <= g.Keys
  }

  // Each node is followed by one of its direct prerequisites.
  ghost predicate IsPath(g: Graph, p: seq<Node>) {
    && p != []
    && (forall i :: 0 <= i < |p| ==> p[i] in g)
    && (forall i :: 0 <= i < |p| - 1 ==> p[i + 1] in g[p[i]])
  }

  ghost predicate PathFrom(g: Graph, a: Node, b: Node, p: seq<Node>) {
    IsPath(g, p) && |p| >= 2 && p[0] == a && p[|p| - 1] == b
  }

  // b is a direct or indirect prerequisite of a.
  ghost predicate Reaches(g: Graph, a: Node, b: Node) {
    exists p :: PathFrom(g, a, b, p)
  }

  ghost predicate Cyclic(g: Graph) {
    exists a :: Reaches(g, a, a)
  }

  ghost function Prerequisites(g: Graph, a: Node): set<Node> {
    set b | b in g && Reaches(g, a, b)
  }

  lemma {:induction false} ReachesDirect(g: Graph, a: Node, b: Node)
    requires Closed(g) && a in g && b in g[a]
    ensures Reaches(g, a, b)
  {
    assert PathFrom(g, a, b, [a, b]);
  }

  lemma {:induction false} ReachesTrans(g: Graph, a: Node, b: Node, c: Node)
    requires Reaches(g, a, b) && Reaches(g, b, c)
    ensures Reaches(g, a, c)
  {
    var p :| PathFrom(g, a, b, p);
    var q :| PathFrom(g, b, c, q);
    var r := p + q[1..];
    assert forall i :: 0 <= i < |r| - 1 ==> r[i + 1] in g[r[i]] by {
      forall i | 0 <= i < |r| - 1
        ensures r[i + 1] in g[r[i]]
      {
        if i >= |p| - 1 {
          assert r[i] == q[i - (|p| - 1)] && r[i + 1] == q[i + 1 - (|p| - 1)];
        }
      }
    }
    assert PathFrom(g, a, c, r);
  }

  lemma {:induction false} ReachingNeedsAnEdge(g: Graph, a: Node, b: Node)
    ensures Reaches(g, a, b) ==> a in g && g[a] != {}
  {
    if Reaches(g, a, b) {
      var p :| PathFrom(g, a, b, p);
      assert p[1] in g[p[0]];
    }
  }

  /** Strict reachability unfolds along the first edge, in both directions. */
  lemma {:induction false} ReachesUnfolds(g: Graph, a: Node, b: Node)
    requires Closed(g) && a in g
    ensures Reaches(g, a, b) <==> exists d :: d in g[a] && (d == b || Reaches(g, d, b))
  {
    if Reaches(g, a, b) {
      var p :| PathFrom(g, a, b, p);
      if |p| > 2 {
        assert PathFrom(g, p[1], b, p[1..]);
      }
      assert p[1] in g[a] && (p[1] == b || Reaches(g, p[1], b));
    }
    if d :| d in g[a] && (d == b || Reaches(g, d, b)) {
      ReachesDirect(g, a, d);
      if d != b {
        ReachesTrans(g, a, d, b);
      }
    }
  }

  lemma {:induction false} PrerequisitesUnfold(g: Graph, a: Node)
    requires Closed(g) && a in g
    ensures Prerequisites(g, a) == g[a] + set d, b | d in g[a] && b in Prerequisites(g, d) :: b
  {
    forall b
      ensures b in Prerequisites(g, a) <==> b in g[a] || exists d :: d in g[a] && b in Prerequisites(g, d)
    {
      ReachesUnfolds(g, a, b);
      if d :| d in g[a] && Reaches(g, d, b) {
        ReachesInGraph(g, d, b);
      }
    }
  }

  lemma {:induction false} ReachesInGraph(g: Graph, a: Node, b: Node)
    requires Reaches(g, a, b)
    ensures a in g && b in g
  {
  }

  // ---------------------------------------------------------------- a set with no way out

  ghost predicate Stuck(g: Graph, s: set<Node>) {
    s != {} && s <= g.Keys && forall k :: k in s ==> g[k] * s != {}
  }

  lemma {:induction false} WalkInside(g: Graph, s: set<Node>, start: Node, n: nat) returns (p: seq<Node>)
    requires Stuck(g, s) && start in s
    ensures IsPath(g, p) && p[0] == start && |p| == n + 1 && forall i :: 0 <= i < |p| ==> p[i] in s
  {
    if n == 0 {
      p := [start];
    } else {
      var q := WalkInside(g, s, start, n - 1);
      var d :| d in g[q[n - 1]] * s;
      p := q + [d];
    }
  }

  // A sequence that takes all its values from a set it outnumbers repeats one of them.
  lemma {:induction false} Pigeonhole(p: seq<Node>, s: set<Node>) returns (i: nat, j: nat)
    requires |p| > |s| && forall k :: 0 <= k < |p| ==> p[k] in s
    ensures i < j < |p| && p[i] == p[j]
    decreases |p|
  {
    var n := |p| - 1;
    if k :| 0 <= k < n && p[k] == p[n] {
      i, j := k, n;
    } else {
      i, j := Pigeonhole(p[..n], s - {p[n]});
    }
  }

  // The node lies on a cycle or has a prerequisite that does.
  ghost predicate Blocked(g: Graph, k: Node) {
    exists c :: Reaches(g, c, c) && (k == c || Reaches(g, k, c))
  }

  /** Every node of a set in which each keeps a prerequisite leads to a cycle. */
  lemma {:induction false} StuckNodeIsBlocked(g: Graph, s: set<Node>, k: Node)
    requires Stuck(g, s) && k in s
    ensures Blocked(g, k)
  {
    var p := WalkInside(g, s, k, |s|);
    var i, j := Pigeonhole(p, s);
    assert PathFrom(g, p[i], p[i], p[i..j + 1]);
    assert Reaches(g, p[i], p[i]);
    if i > 0 {
      assert PathFrom(g, k, p[i], p[..i + 1]);
    }
  }

  lemma {:induction false} StuckSetHasCycle(g: Graph, s: set<Node>)
    requires Stuck(g, s)
    ensures Cyclic(g)
  {
    var k :| k in s;
    StuckNodeIsBlocked(g, s, k);
  }

  /** In an acyclic graph every nonempty set of nodes has one with all prerequisites outside it. */
  lemma {:induction false} AcyclicHasReady(g: Graph, s: set<Node>) returns (k: Node)
    requires !Cyclic(g) && s != {} && s <= g.Keys
    ensures k in s && g[k] * s == {}
  {
    if Stuck(g, s) {
      StuckSetHasCycle(g, s);
    }
    k :| k in s && g[k] * s == {};
  }

  // ---------------------------------------------------------------- a downward closed part

  ghost predicate DownClosed(g: Graph, done: set<Node>) {
    done <= g.Keys && forall k :: k in done ==> g[k] <= done
  }

  lemma {:induction false} PathStaysDown(g: Graph, done: set<Node>, p: seq<Node>, i: nat)
    requires DownClosed(g, done) && IsPath(g, p) && p[0] in done && i < |p|
    ensures p[i] in done
    decreases i
  {
    if i > 0 {
      PathStaysDown(g, done, p, i - 1);
      assert p[i - 1 + 1] in g[p[i - 1]];
    }
  }

  lemma {:induction false} ReachesStaysDown(g: Graph, done: set<Node>, a: Node, b: Node)
    requires DownClosed(g, done) && a in done && Reaches(g, a, b)
    ensures b in done
  {
    var p :| PathFrom(g, a, b, p);
    PathStaysDown(g, done, p, |p| - 1);
  }

  // No node of the part is its own prerequisite.
  ghost predicate AcyclicOn(g: Graph, done: set<Node>) {
    forall k :: k in done ==> !Reaches(g, k, k)
  }

  /** Adding nodes whose prerequisites are all in an acyclic closed part keeps it so. */
  lemma {:induction false} ExtendAcyclic(g: Graph, done: set<Node>, ready: set<Node>)
    requires Closed(g) && DownClosed(g, done) && AcyclicOn(g, done)
    requires ready <= g.Keys && ready !! done && forall k :: k in ready ==> g[k] <= done
    ensures DownClosed(g, done + ready) && AcyclicOn(g, done + ready)
  {
    forall k | k in ready
      ensures !Reaches(g, k, k)
    {
      if Reaches(g, k, k) {
        ReachesUnfolds(g, k, k);
        var d :| d in g[k] && (d == k || Reaches(g, d, k));
        if d != k {
          ReachesStaysDown(g, done, d, k);
        }
      }
    }
  }

  lemma {:induction false} DoneIsNotBlocked(g: Graph, done: set<Node>, k: Node)
    requires DownClosed(g, done) && AcyclicOn(g, done) && k in done
    ensures !Blocked(g, k)
  {
    if c :| Reaches(g, c, c) && (k == c || Reaches(g, k, c)) {
      if k != c {
        ReachesStaysDown(g, done, k, c);
      }
    }
  }

  lemma {:induction false} AcyclicOnAll(g: Graph)
    requires AcyclicOn(g, g.Keys)
    ensures !Cyclic(g)
  {
    if a :| Reaches(g, a, a) {
      ReachesInGraph(g, a, a);
    }
  }

  // ---------------------------------------------------------------- subgraphs

  /** A graph whose edges all come from an acyclic graph is acyclic. */
  lemma {:induction false} SubgraphAcyclic(g: Graph, h: Graph)
    requires !Cyclic(g)
    requires h.Keys <= g.Keys && forall k :: k in h ==> h[k] * h.Keys <= g[k]
    ensures !Cyclic(h)
  {
    if a :| Reaches(h, a, a) {
      var p :| PathFrom(h, a, a, p);
      assert forall i :: 0 <= i < |p| - 1 ==> p[i + 1] in h[p[i]] * h.Keys;
      assert PathFrom(g, a, a, p) && Reaches(g, a, a);
    }
  }

  /** A node without prerequisites lies on no cycle, so cycles live in the rest of the graph. */
  lemma {:induction false} CycleAvoidsRoots(g: Graph, h: Graph, roots: set<Node>)
    requires !Cyclic(h) && h.Keys + roots == g.Keys && h.Keys !! roots
    requires forall k :: k in roots ==> g[k] == {}
    requires forall k :: k in h ==> g[k] - roots <= h[k]
    ensures !Cyclic(g)
  {
    if a :| Reaches(g, a, a) {
      var p :| PathFrom(g, a, a, p);
      forall i | 0 <= i < |p|
        ensures p[i] in h
      {
        if i < |p| - 1 {
          assert p[i + 1] in g[p[i]];
        } else {
          assert p[1] in g[p[0]];
        }
      }
      assert forall i :: 0 <= i < |p| - 1 ==> p[i + 1] in g[p[i]] - roots;
      assert PathFrom(h, a, a, p) && Reaches(h, a, a);
    }
  }
}
