/** The contraction as the source runs it, filling a shared graph. */
module ImpactedGraph {
  import opened Wrappers
  import opened Graphs
  import opened Collapse
  import opened ContractionMeaning

  ghost predicate Agrees(r: Result<Digraph, GraphError>, err: Option<GraphError>, c: Digraph) {
    match r
    case Success(d) => err == None && c == d
    case Failure(e) => err == Some(e)
  }

  lemma {:induction false} CollapsedEachAppend(impacted: set<Name>, parent: Option<Name>, ts: seq<Visit>,
                                               us: seq<Visit>, c: Digraph)
    ensures CollapsedEach(impacted, parent, ts + us, c) ==
            match CollapsedEach(impacted, parent, ts, c)
            case Success(d) => CollapsedEach(impacted, parent, us, d)
            case Failure(e) => Failure(e)
    decreases ts
  {
    if ts == [] {
      assert ts + us == us;
    } else {
      assert (ts + us)[0] == ts[0] && (ts + us)[1..] == ts[1..] + us;
      match Collapsed(impacted, parent, ts[0], c)
      case Success(d) => CollapsedEachAppend(impacted, parent, ts[1..], us, d);
      case Failure(_) =>
    }
  }

  lemma CollapsedEachOne(impacted: set<Name>, parent: Option<Name>, t: Visit, c: Digraph)
    ensures CollapsedEach(impacted, parent, [t], c) == Collapsed(impacted, parent, t, c)
  {
    assert [t][1..] == [];
  }

  // The walks done so far, then the one under way, then any walks of what remains.
  lemma WalksJoin(edges: set<(Name, Name)>, ts: seq<Visit>, t: Visit, us: seq<Visit>)
    requires Distinct(ts) && Distinct(us) && t.node !in Nodes(ts) && t.node !in Nodes(us) && Nodes(ts) !! Nodes(us)
    requires Walks(edges, t) && forall k :: k in ts || k in us ==> Walks(edges, k)
    ensures Distinct(ts + [t] + us) && Nodes(ts + [t] + us) == Nodes(ts) + {t.node} + Nodes(us)
    ensures forall k :: k in ts + [t] + us ==> Walks(edges, k)
  {
    var all := ts + [t] + us;
    forall k ensures k in all <==> k in ts || k == t || k in us {}
    forall i, j | 0 <= i < j < |all| ensures all[i].node != all[j].node {
      if i < |ts| {
        assert all[i] in ts;
      }
      if j > |ts| {
        assert all[j] == us[j - |ts| - 1] && all[j] in us;
      }
      if i > |ts| {
        assert all[i] == us[i - |ts| - 1];
      }
    }
  }

  /** One call: adds the vertex if it is impacted, walks its children, then hangs it from the impacted parent. */
  method CollapsedGraph(impactedParent: Option<Name>, currentNode: Name, adjMap: Digraph, g: ProjectGraph,
                        impacted: set<Name>)
    returns (err: Option<GraphError>, ghost walk: Visit)
    requires IsDag(adjMap) && g.Valid()
    modifies g
    ensures g.Valid()
    ensures walk.node == currentNode && Walks(adjMap.edges, walk)
    ensures Agrees(Collapsed(impacted, impactedParent, walk, old(g.Model())), err, g.Model())
    decreases Below(adjMap, currentNode), 1
  {
    ghost var kids;
    if currentNode in impacted {
      walk := Unfolded(adjMap, currentNode);
      err := g.AddVertex(currentNode);
      if err.Some? {
        if err.value == VertexAlreadyExists {
          return None, walk;
        }
        return err, walk;
      }
      err, kids := WalkChildren(Some(currentNode), currentNode, adjMap, g, impacted);
      walk := Visit(currentNode, kids);
      if err.Some? {
        return err, walk;
      }
      if impactedParent.Some? {
        err := g.AddEdge(impactedParent.value, currentNode);
      }
    } else {
      err, kids := WalkChildren(impactedParent, currentNode, adjMap, g, impacted);
      walk := Visit(currentNode, kids);
    }
  }

  /** The loop over the children of a vertex, in the arbitrary order of a map. */
  method WalkChildren(parent: Option<Name>, node: Name, adjMap: Digraph, g: ProjectGraph, impacted: set<Name>)
    returns (err: Option<GraphError>, ghost kids: seq<Visit>)
    requires IsDag(adjMap) && g.Valid()
    modifies g
    ensures g.Valid()
    ensures Distinct(kids) && Nodes(kids) == Successors(adjMap.edges, node)
    ensures forall k :: k in kids ==> Walks(adjMap.edges, k)
    ensures Agrees(CollapsedEach(impacted, parent, kids, old(g.Model())), err, g.Model())
    decreases Below(adjMap, node), 0
  {
    var remaining := Successors(adjMap.edges, node);
    kids := [];
    while remaining != {}
      invariant g.Valid() && remaining <= Successors(adjMap.edges, node)
      invariant Distinct(kids) && Nodes(kids) == Successors(adjMap.edges, node) - remaining
      invariant forall k :: k in kids ==> Walks(adjMap.edges, k)
      invariant CollapsedEach(impacted, parent, kids, old(g.Model())) == Success(g.Model())
      decreases remaining
    {
      var child :| child in remaining;
      assert (node, child) in adjMap.edges;
      BelowShrinks(adjMap, node, child);
      ghost var before := g.Model();
      ghost var walk;
      err, walk := CollapsedGraph(parent, child, adjMap, g, impacted);
      remaining := remaining - {child};
      CollapsedEachAppend(impacted, parent, kids, [walk], old(g.Model()));
      CollapsedEachOne(impacted, parent, walk, before);
      if err.Some? {
        ghost var rest := UnfoldedEach(adjMap, node, remaining);
        WalksJoin(adjMap.edges, kids, walk, rest);
        CollapsedEachAppend(impacted, parent, kids + [walk], rest, old(g.Model()));
        kids := kids + [walk] + rest;
        return;
      }
      WalksJoin(adjMap.edges, kids, walk, []);
      kids := kids + [walk];
      assert kids + [] == kids;
    }
    err := None;
  }

  /** The impacted projects only: a walk from each root of the dependency graph into a new graph. */
  method ImpactedProjectsOnlyGraph(projects: Digraph, impacted: set<Name>)
    returns (err: Option<GraphError>, g: ProjectGraph, ghost walks: seq<Visit>)
    requires IsDag(projects)
    ensures fresh(g) && g.Valid() && err == None && WalksAll(projects, walks)
    ensures g.Model() == Contraction(projects, impacted, walks) && Contracts(projects, impacted, g.Model())
  {
    g := new ProjectGraph();
    walks := [];
    var remaining := Roots(projects);
    while remaining != {}
      invariant g.Valid() && remaining <= Roots(projects)
      invariant Distinct(walks) && Nodes(walks) == Roots(projects) - remaining
      invariant forall t :: t in walks ==> Walks(projects.edges, t)
      invariant CollapsedEach(impacted, None, walks, Digraph({}, {})) == Success(g.Model())
      decreases remaining
    {
      var node :| node in remaining;
      ghost var before := g.Model();
      ghost var walk;
      err, walk := CollapsedGraph(None, node, projects, g, impacted);
      remaining := remaining - {node};
      CollapsedEachAppend(impacted, None, walks, [walk], Digraph({}, {}));
      CollapsedEachOne(impacted, None, walk, before);
      WalksJoin(projects.edges, walks, walk, []);
      assert walks + [walk] + [] == walks + [walk];
      forall t | t in walks + [walk] ensures t.node in Roots(projects) {
        assert t.node in Nodes(walks + [walk]);
      }
      RootsGrow(projects, impacted, walks + [walk], Digraph({}, {}));
      walks := walks + [walk];
      assert err == None;
    }
    err := None;
    ContractionOfAnyWalk(projects, impacted, walks);
  }
}
