/**
  The search for a dependency cycle in the component map: a depth-first search that keeps
  the completed components, the positions of the active ones, and the active path.
 */
module ComponentGraph {
  import opened Wrappers

  type ComponentId = string

  type Components = map<ComponentId, seq<ComponentId>>

  /** Every declared dependency is itself a component; the map is rejected earlier otherwise. */
  predicate Closed(g: Components) {
    forall v, d | v in g && d in g[v] :: d in g
  }

  predicate IsEdge(g: Components, v: ComponentId, w: ComponentId) { v in g && w in g[v] }

  /** Consecutive entries are dependencies of one another. */
  predicate IsPath(g: Components, p: seq<ComponentId>) {
    forall i | 0 <= i < |p| - 1 :: IsEdge(g, p[i], p[i + 1])
  }

  predicate IsCycle(g: Components, p: seq<ComponentId>) {
    |p| >= 2 && p[0] == p[|p| - 1] && IsPath(g, p)
  }

  ghost predicate HasCycle(g: Components) { exists p :: IsCycle(g, p) }

  /** A numbering of completed components in which every dependency is completed with a smaller number. */
  ghost predicate Ranked(g: Components, completed: set<ComponentId>, rank: map<ComponentId, nat>) {
    && rank.Keys == completed
    && forall v, d | v in completed && IsEdge(g, v, d) :: d in completed && rank[d] < rank[v]
  }

  lemma {:induction false} RankFallsAlongPath(g: Components, completed: set<ComponentId>, rank: map<ComponentId, nat>,
      p: seq<ComponentId>)
    requires Ranked(g, completed, rank) && IsPath(g, p) && |p| >= 2 && p[0] in completed
    ensures p[|p| - 1] in completed && rank[p[|p| - 1]] < rank[p[0]]
    decreases |p|
  {
    assert IsEdge(g, p[0], p[1]);
    if |p| > 2 {
      assert IsPath(g, p[1..]) by {
        forall i | 0 <= i < |p[1..]| - 1 ensures IsEdge(g, p[1..][i], p[1..][i + 1]) {
          assert IsEdge(g, p[i + 1], p[i + 2]);
        }
      }
      RankFallsAlongPath(g, completed, rank, p[1..]);
    }
  }

  /** A graph whose components can all be ranked has no cycle. */
  lemma RankedGraphHasNoCycle(g: Components, rank: map<ComponentId, nat>)
    requires Ranked(g, g.Keys, rank)
    ensures !HasCycle(g)
  {
    forall p | IsCycle(g, p) ensures false {
      assert IsEdge(g, p[0], p[1]);
      RankFallsAlongPath(g, g.Keys, rank, p);
    }
  }

  // ---- The active path as a stack ----

  /** The active positions index the path, and the path is a path of the graph. */
  ghost predicate ValidStack(g: Components, active: map<ComponentId, nat>, path: seq<ComponentId>) {
    && (forall v | v in active :: active[v] < |path| && path[active[v]] == v)
    && active.Keys <= g.Keys
    && IsPath(g, path)
  }

  predicate Extends(g: Components, path: seq<ComponentId>, component: ComponentId) {
    path == [] || IsEdge(g, path[|path| - 1], component)
  }

  lemma PathExtends(g: Components, path: seq<ComponentId>, component: ComponentId)
    requires IsPath(g, path) && Extends(g, path, component)
    ensures IsPath(g, path + [component])
  {
    var p := path + [component];
    forall i | 0 <= i < |p| - 1 ensures IsEdge(g, p[i], p[i + 1]) {
      if i < |path| - 1 { assert IsEdge(g, path[i], path[i + 1]); }
    }
  }

  lemma PushKeepsStack(g: Components, active: map<ComponentId, nat>, path: seq<ComponentId>, component: ComponentId)
    requires ValidStack(g, active, path) && Extends(g, path, component) && component in g && component !in active
    ensures ValidStack(g, active[component := |path|], path + [component])
    ensures active[component := |path|] - {component} == active && (path + [component])[..|path|] == path
  {
    PathExtends(g, path, component);
  }

  /** Meeting an active component again closes a cycle. */
  lemma ActiveComponentClosesCycle(g: Components, active: map<ComponentId, nat>, path: seq<ComponentId>,
      component: ComponentId)
    requires ValidStack(g, active, path) && Extends(g, path, component) && component in active
    ensures IsCycle(g, path[active[component]..] + [component])
  {
    var suffix := path[active[component]..];
    assert IsPath(g, suffix) by {
      forall i | 0 <= i < |suffix| - 1 ensures IsEdge(g, suffix[i], suffix[i + 1]) {
        assert IsEdge(g, path[active[component] + i], path[active[component] + i + 1]);
      }
    }
    PathExtends(g, suffix, component);
  }

  /** Completing a component whose dependencies are completed keeps the numbering. */
  lemma CompletionKeepsRank(g: Components, completed: set<ComponentId>, rank: map<ComponentId, nat>, bound: nat,
      component: ComponentId)
    requires Ranked(g, completed, rank) && (forall v | v in rank :: rank[v] < bound)
    requires component in g && (forall j | 0 <= j < |g[component]| :: g[component][j] in completed)
    requires component !in completed
    ensures Ranked(g, completed + {component}, rank[component := bound])
  {
    var after := rank[component := bound];
    forall v, d | v in completed + {component} && IsEdge(g, v, d) ensures d in completed && after[d] < after[v] {
      if v == component { var j :| 0 <= j < |g[v]| && g[v][j] == d; }
    }
  }

  class DependencySearch {
    const g: Components
    var completed: set<ComponentId>
    var activePositions: map<ComponentId, nat>
    var path: seq<ComponentId>
    ghost var rank: map<ComponentId, nat>
    ghost var bound: nat

    constructor (g: Components)
      ensures this.g == g && Valid() && path == [] && completed == {}
    {
      this.g := g;
      completed := {};
      activePositions := map[];
      path := [];
      rank := map[];
      bound := 0;
    }

    ghost predicate Valid()
      reads this
    {
      && ValidStack(g, activePositions, path)
      && completed <= g.Keys && completed !! activePositions.Keys
      && Ranked(g, completed, rank)
      && (forall v | v in rank :: rank[v] < bound)
    }

    /** Visits a component that is the next dependency of the active path. */
    method Visit(component: ComponentId) returns (cycle: Option<seq<ComponentId>>)
      requires Valid() && Closed(g) && component in g && Extends(g, path, component)
      modifies this
      ensures cycle.Some? ==> IsCycle(g, cycle.value)
      ensures cycle.None? ==>
                && Valid() && path == old(path) && activePositions == old(activePositions)
                && component in completed && old(completed) <= completed
      decreases g.Keys - activePositions.Keys, 0
    {
      if component in activePositions {
        var start := activePositions[component];
        ActiveComponentClosesCycle(g, activePositions, path, component);
        return Some(path[start..] + [component]);
      }
      if component in completed {
        return None;
      }
      PushKeepsStack(g, activePositions, path, component);
      activePositions := activePositions[component := |path|];
      path := path + [component];
      assert component in old(g.Keys - activePositions.Keys) && component !in g.Keys - activePositions.Keys;
      assert g.Keys - activePositions.Keys < old(g.Keys - activePositions.Keys);
      cycle := VisitDependencies(component);
      if cycle.Some? {
        return;
      }
      CompletionKeepsRank(g, completed, rank, bound, component);
      path := path[..|path| - 1];
      activePositions := activePositions - {component};
      assert path == old(path) && activePositions == old(activePositions);
      completed := completed + {component};
      rank, bound := rank[component := bound], bound + 1;
      cycle := None;
    }

    /** The loop of a visit: every dependency of the component on top of the path. */
    method VisitDependencies(component: ComponentId) returns (cycle: Option<seq<ComponentId>>)
      requires Valid() && Closed(g) && component in g && path != [] && path[|path| - 1] == component
      modifies this
      ensures cycle.Some? ==> IsCycle(g, cycle.value)
      ensures cycle.None? ==>
                && Valid() && path == old(path) && activePositions == old(activePositions)
                && old(completed) <= completed
                && (forall j | 0 <= j < |g[component]| :: g[component][j] in completed)
      decreases g.Keys - activePositions.Keys, 1
    {
      cycle := None;
      for i := 0 to |g[component]|
        invariant cycle.None? && Valid() && path == old(path) && activePositions == old(activePositions)
        invariant old(completed) <= completed
        invariant forall j | 0 <= j < i :: g[component][j] in completed
      {
        assert IsEdge(g, component, g[component][i]);
        cycle := Visit(g[component][i]);
        if cycle.Some? {
          return;
        }
      }
    }
  }

  /**
    The result is a real edge path that ends where it starts, and nothing is returned exactly
    when the graph has no cycle, in whatever order the components are listed.
   */
  method FindDependencyCycle(g: Components, order: seq<ComponentId>) returns (cycle: Option<seq<ComponentId>>)
    requires Closed(g) && (forall v :: v in order <==> v in g)
    ensures cycle.Some? ==> IsCycle(g, cycle.value)
    ensures cycle.None? <==> !HasCycle(g)
  {
    var search := new DependencySearch(g);
    cycle := None;
    for i := 0 to |order|
      invariant cycle.None? && search.g == g && search.Valid() && search.path == []
      invariant forall j | 0 <= j < i :: order[j] in search.completed
    {
      cycle := search.Visit(order[i]);
      if cycle.Some? {
        return;
      }
    }
    assert search.completed == g.Keys by {
      forall v | v in g ensures v in search.completed { assert v in order; }
    }
    RankedGraphHasNoCycle(g, search.rank);
  }
}
