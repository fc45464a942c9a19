/**
 Directed graphs of projects, as the backend uses them through its graph library:
 adding a present vertex fails, and adding an edge fails when an end is missing,
 when the edge is present, or when it would close a cycle.
 */
module Graphs {
  import opened Wrappers

  type Name = string

  datatype Digraph = Digraph(vertices: set<Name>, edges: set<(Name, Name)>)

  datatype GraphError = VertexNotFound | VertexAlreadyExists | EdgeAlreadyExists | EdgeCreatesCycle

  function Successors(edges: set<(Name, Name)>, v: Name): set<Name> {
    set e | e in edges && e.0 == v :: e.1
  }

  function Predecessors(edges: set<(Name, Name)>, v: Name): set<Name> {
    set e | e in edges && e.1 == v :: e.0
  }

  function Roots(g: Digraph): set<Name> {
    set v | v in g.vertices && Predecessors(g.edges, v) == {}
  }

  // Paths and reachability

  ghost predicate IsPath(edges: set<(Name, Name)>, p: seq<Name>) {
    |p| > 0 && forall i :: 0 <= i < |p| - 1 ==> (p[i], p[i + 1]) in edges
  }

  ghost predicate Connects(edges: set<(Name, Name)>, p: seq<Name>, u: Name, v: Name) {
    IsPath(edges, p) && p[0] == u && p[|p| - 1] == v
  }

  // Every vertex reaches itself, by the path of one vertex.
  ghost predicate Reaches(edges: set<(Name, Name)>, u: Name, v: Name) {
    exists p :: Connects(edges, p, u, v)
  }

  ghost predicate Acyclic(edges: set<(Name, Name)>) {
    forall e :: e in edges ==> !Reaches(edges, e.1, e.0)
  }

  ghost predicate IsDag(g: Digraph) {
    && (forall e :: e in g.edges ==> e.0 in g.vertices && e.1 in g.vertices)
    && Acyclic(g.edges)
  }

  // Each vertex has one incoming edge at most: a forest, the shape every contraction has.
  ghost predicate OneParentEach(g: Digraph) {
    forall e, f :: e in g.edges && f in g.edges && e.1 == f.1 ==> e == f
  }

  ghost predicate NoRepeats(s: seq<Name>) {
    forall i, j :: 0 <= i < j < |s| ==> s[i] != s[j]
  }

  lemma ReachesSelf(edges: set<(Name, Name)>, v: Name)
    ensures Reaches(edges, v, v)
  {
    assert Connects(edges, [v], v, v);
  }

  lemma ReachesEdge(edges: set<(Name, Name)>, u: Name, v: Name)
    requires (u, v) in edges
    ensures Reaches(edges, u, v)
  {
    assert Connects(edges, [u, v], u, v);
  }

  lemma ReachesTransitive(edges: set<(Name, Name)>, u: Name, v: Name, w: Name)
    requires Reaches(edges, u, v) && Reaches(edges, v, w)
    ensures Reaches(edges, u, w)
  {
    var p :| Connects(edges, p, u, v);
    var q :| Connects(edges, q, v, w);
    assert Connects(edges, p + q[1..], u, w);
  }

  lemma ReachesMonotone(edges: set<(Name, Name)>, more: set<(Name, Name)>, u: Name, v: Name)
    requires edges <= more && Reaches(edges, u, v)
    ensures Reaches(more, u, v)
  {
    var p :| Connects(edges, p, u, v);
    assert Connects(more, p, u, v);
  }

  // A path is worth reachability between any two of its vertices.
  lemma PathReaches(edges: set<(Name, Name)>, p: seq<Name>, i: nat, j: nat)
    requires IsPath(edges, p) && i <= j < |p|
    ensures Reaches(edges, p[i], p[j])
  {
    assert Connects(edges, p[i..j + 1], p[i], p[j]);
  }

  // Reachability seen from its first edge.
  lemma ReachesFirstEdge(edges: set<(Name, Name)>, u: Name, v: Name) returns (w: Name)
    requires Reaches(edges, u, v) && u != v
    ensures (u, w) in edges && Reaches(edges, w, v)
  {
    var p :| Connects(edges, p, u, v);
    w := p[1];
    PathReaches(edges, p, 1, |p| - 1);
  }

  lemma ReachesLastEdge(edges: set<(Name, Name)>, u: Name, v: Name) returns (w: Name)
    requires Reaches(edges, u, v) && u != v
    ensures (w, v) in edges && Reaches(edges, u, w)
  {
    var p :| Connects(edges, p, u, v);
    w := p[|p| - 2];
    PathReaches(edges, p, 0, |p| - 2);
  }

  lemma ReachesInside(g: Digraph, u: Name, v: Name)
    requires IsDag(g) && u in g.vertices && Reaches(g.edges, u, v)
    ensures v in g.vertices
  {
    var p :| Connects(g.edges, p, u, v);
    if |p| > 1 {
      assert (p[|p| - 2], p[|p| - 1]) in g.edges;
    }
  }

  lemma DistinctOnPath(edges: set<(Name, Name)>, p: seq<Name>, i: nat, j: nat)
    requires Acyclic(edges) && IsPath(edges, p) && i < j < |p|
    ensures p[i] != p[j]
  {
    assert (p[i], p[i + 1]) in edges;
    PathReaches(edges, p, i + 1, j);
  }

  lemma NoReachBack(edges: set<(Name, Name)>, u: Name, v: Name)
    requires Acyclic(edges) && Reaches(edges, u, v) && Reaches(edges, v, u)
    ensures u == v
  {
    if u != v {
      var w := ReachesFirstEdge(edges, u, v);
      ReachesTransitive(edges, w, v, u);
      assert false;
    }
  }

  // The vertices at or below a vertex: they shrink along every edge of a DAG,
  // which is what makes a traversal without a visited set end.
  ghost function Below(g: Digraph, v: Name): set<Name> {
    set w | w in g.vertices && Reaches(g.edges, v, w)
  }

  lemma BelowShrinks(g: Digraph, u: Name, v: Name)
    requires IsDag(g) && (u, v) in g.edges
    ensures Below(g, v) < Below(g, u)
  {
    ReachesEdge(g.edges, u, v);
    ReachesSelf(g.edges, u);
    forall w | w in Below(g, v) ensures w in Below(g, u) {
      ReachesTransitive(g.edges, u, v, w);
    }
    assert u in Below(g, u) && u !in Below(g, v);
  }

  ghost function Above(g: Digraph, v: Name): set<Name> {
    set w | w in g.vertices && Reaches(g.edges, w, v)
  }

  lemma AboveShrinks(g: Digraph, u: Name, v: Name)
    requires IsDag(g) && (u, v) in g.edges
    ensures Above(g, u) < Above(g, v)
  {
    ReachesEdge(g.edges, u, v);
    ReachesSelf(g.edges, v);
    forall w | w in Above(g, u) ensures w in Above(g, v) {
      ReachesTransitive(g.edges, w, u, v);
    }
    assert v in Above(g, v) && v !in Above(g, u);
  }

  // Every vertex of a DAG ends some path that starts at a root.
  lemma {:induction false} RootPath(g: Digraph, v: Name) returns (p: seq<Name>)
    requires IsDag(g) && v in g.vertices
    ensures IsPath(g.edges, p) && p[0] in Roots(g) && p[|p| - 1] == v
    decreases Above(g, v)
  {
    if Predecessors(g.edges, v) == {} {
      p := [v];
    } else {
      var u :| u in Predecessors(g.edges, v);
      assert (u, v) in g.edges;
      AboveShrinks(g, u, v);
      var q := RootPath(g, u);
      p := q + [v];
    }
  }

  // Adding vertices and edges

  function WithVertex(g: Digraph, v: Name): Result<Digraph, GraphError> {
    if v in g.vertices then Failure(VertexAlreadyExists)
    else Success(Digraph(g.vertices + {v}, g.edges))
  }

  ghost function WithEdge(g: Digraph, source: Name, target: Name): Result<Digraph, GraphError> {
    if source !in g.vertices || target !in g.vertices then Failure(VertexNotFound)
    else if (source, target) in g.edges then Failure(EdgeAlreadyExists)
    else if Reaches(g.edges, target, source) then Failure(EdgeCreatesCycle)
    else Success(Digraph(g.vertices, g.edges + {(source, target)}))
  }

  // A path that uses the new edge splits into a part before it and a part after it.
  lemma {:induction false} ReachesAfterAdd(edges: set<(Name, Name)>, e: (Name, Name), p: seq<Name>, u: Name, v: Name)
    requires Connects(edges + {e}, p, u, v)
    ensures Reaches(edges, u, v) || (Reaches(edges, u, e.0) && Reaches(edges, e.1, v))
    decreases |p|
  {
    if |p| == 1 {
      ReachesSelf(edges, u);
    } else {
      var w := p[1];
      assert Connects(edges + {e}, p[1..], w, v);
      ReachesAfterAdd(edges, e, p[1..], w, v);
      assert (p[0], p[1]) in edges + {e};
      if (u, w) in edges {
        ReachesEdge(edges, u, w);
        if Reaches(edges, w, v) {
          ReachesTransitive(edges, u, w, v);
        } else {
          ReachesTransitive(edges, u, w, e.0);
        }
      } else {
        ReachesSelf(edges, u);
      }
    }
  }

  lemma WithEdgeKeepsDag(g: Digraph, source: Name, target: Name)
    requires IsDag(g) && WithEdge(g, source, target).Success?
    ensures IsDag(WithEdge(g, source, target).value)
  {
    var more := g.edges + {(source, target)};
    forall e | e in more ensures !Reaches(more, e.1, e.0) {
      if Reaches(more, e.1, e.0) {
        var p :| Connects(more, p, e.1, e.0);
        ReachesAfterAdd(g.edges, (source, target), p, e.1, e.0);
        if e in g.edges {
          ReachesEdge(g.edges, e.0, e.1);
          if !Reaches(g.edges, e.1, e.0) {
            ReachesTransitive(g.edges, target, e.0, e.1);
            ReachesTransitive(g.edges, target, e.1, source);
          }
        }
        assert false;
      }
    }
  }

  /** What the library's cycle check decides before it adds an edge: whether `from` reaches `to`. */
  method Searches(edges: set<(Name, Name)>, from: Name, to: Name) returns (found: bool)
    ensures found <==> Reaches(edges, from, to)
  {
    var seen := {from};
    var open := {from};
    ReachesSelf(edges, from);
    ghost var universe := {from} + set e | e in edges :: e.1;
    while open != {}
      invariant from in seen && open <= seen <= universe
      invariant forall v :: v in seen ==> Reaches(edges, from, v)
      invariant forall e :: e in edges && e.0 in seen ==> e.0 in open || e.1 in seen
      decreases universe - seen, open
    {
      var v :| v in open;
      var unseen := Successors(edges, v) - seen;
      forall w | w in unseen ensures Reaches(edges, from, w) {
        ReachesEdge(edges, v, w);
        ReachesTransitive(edges, from, v, w);
      }
      forall e | e in edges && e.0 == v ensures e.1 in seen + unseen {
        assert e.1 in Successors(edges, v);
      }
      ghost var before := universe - seen;
      open := (open - {v}) + unseen;
      seen := seen + unseen;
      if unseen != {} {
        ghost var w :| w in unseen;
        assert w in before && w !in universe - seen;
      } else {
        assert seen == seen + unseen;
      }
    }
    found := to in seen;
    if Reaches(edges, from, to) {
      ghost var p :| Connects(edges, p, from, to);
      SeenIsClosed(edges, seen, p);
    }
  }

  lemma {:induction false} SeenIsClosed(edges: set<(Name, Name)>, seen: set<Name>, p: seq<Name>)
    requires IsPath(edges, p) && p[0] in seen
    requires forall e :: e in edges && e.0 in seen ==> e.1 in seen
    ensures p[|p| - 1] in seen
    decreases |p|
  {
    if |p| > 1 {
      assert (p[0], p[1]) in edges;
      SeenIsClosed(edges, seen, p[1..]);
    }
  }

  /** The library's mutable directed graph with cycle prevention. */
  class ProjectGraph {
    var vertices: set<Name>
    var edges: set<(Name, Name)>

    ghost predicate Valid()
      reads this
    {
      IsDag(Model())
    }

    function Model(): Digraph
      reads this
    {
      Digraph(vertices, edges)
    }

    constructor ()
      ensures Model() == Digraph({}, {}) && Valid()
    {
      vertices, edges := {}, {};
    }

    method AddVertex(v: Name) returns (err: Option<GraphError>)
      requires Valid()
      modifies this
      ensures Valid()
      ensures match WithVertex(old(Model()), v)
              case Success(g) => err == None && Model() == g
              case Failure(e) => err == Some(e) && Model() == old(Model())
    {
      if v in vertices {
        return Some(VertexAlreadyExists);
      }
      vertices := vertices + {v};
      return None;
    }

    method AddEdge(source: Name, target: Name) returns (err: Option<GraphError>)
      requires Valid()
      modifies this
      ensures Valid()
      ensures match WithEdge(old(Model()), source, target)
              case Success(g) => err == None && Model() == g
              case Failure(e) => err == Some(e) && Model() == old(Model())
    {
      if source !in vertices || target !in vertices {
        return Some(VertexNotFound);
      }
      if (source, target) in edges {
        return Some(EdgeAlreadyExists);
      }
      var closes := Searches(edges, target, source);
      if closes {
        return Some(EdgeCreatesCycle);
      }
      WithEdgeKeepsDag(Model(), source, target);
      edges := edges + {(source, target)};
      return None;
    }
  }
}
