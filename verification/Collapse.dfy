/**
 Contracting the dependency graph to the impacted projects.

 The source walks the children of a vertex in the order of a Go map, which is
 arbitrary and fresh at every visit. A Visit records one such walk; every claim
 here is for all walks.
 */
module Collapse {
  import opened Wrappers
  import opened Graphs

  datatype Visit = Visit(node: Name, kids: seq<Visit>)

  ghost predicate Distinct(ts: seq<Visit>) {
    forall i, j :: 0 <= i < j < |ts| ==> ts[i].node != ts[j].node
  }

  ghost function Nodes(ts: seq<Visit>): set<Name> {
    set t | t in ts :: t.node
  }

  lemma NodesOfCons(t: Visit, rest: seq<Visit>)
    ensures Nodes([t] + rest) == {t.node} + Nodes(rest)
    ensures Distinct(rest) && t.node !in Nodes(rest) ==> Distinct([t] + rest)
  {
    var ts := [t] + rest;
    assert forall k :: k in ts <==> k == t || k in rest;
    if Distinct(rest) && t.node !in Nodes(rest) {
      forall i, j | 0 <= i < j < |ts| ensures ts[i].node != ts[j].node {
        assert ts[j] == rest[j - 1] && rest[j - 1] in rest;
      }
    }
  }

  // Each vertex's children are visited once each, in some order.
  ghost predicate Walks(edges: set<(Name, Name)>, t: Visit)
    decreases t
  {
    && Distinct(t.kids) && Nodes(t.kids) == Successors(edges, t.node)
    && forall k :: k in t.kids ==> Walks(edges, k)
  }

  // A whole run starts a walk at each root, in some order.
  ghost predicate WalksAll(g: Digraph, ts: seq<Visit>) {
    && Distinct(ts) && Nodes(ts) == Roots(g)
    && forall t :: t in ts ==> Walks(g.edges, t)
  }

  // What one call of CollapsedGraph does to the graph it builds.
  ghost function Collapsed(impacted: set<Name>, parent: Option<Name>, t: Visit, g: Digraph): Result<Digraph, GraphError>
    decreases t, 1
  {
    if t.node !in impacted then CollapsedEach(impacted, parent, t.kids, g)
    else if t.node in g.vertices then Success(g)
    else
      var added :- WithVertex(g, t.node);
      var below :- CollapsedEach(impacted, Some(t.node), t.kids, added);
      match parent
      case None => Success(below)
      case Some(p) => WithEdge(below, p, t.node)
  }

  ghost function CollapsedEach(impacted: set<Name>, parent: Option<Name>, ts: seq<Visit>,
                               g: Digraph): Result<Digraph, GraphError>
    decreases ts, 0
  {
    if ts == [] then Success(g)
    else
      var first :- Collapsed(impacted, parent, ts[0], g);
      CollapsedEach(impacted, parent, ts[1..], first)
  }

  // Sources: where a vertex may hang in the contracted graph

  // The last impacted vertex of a path, if any.
  ghost function LastImpacted(impacted: set<Name>, p: seq<Name>): Option<Name> {
    if p == [] then None
    else if p[|p| - 1] in impacted then Some(p[|p| - 1])
    else LastImpacted(impacted, p[..|p| - 1])
  }

  ghost predicate RootPathTo(g: Digraph, p: seq<Name>, v: Name) {
    IsPath(g.edges, p) && p[0] in Roots(g) && p[|p| - 1] == v
  }

  // Some path from a root meets s, or no impacted vertex at all, last before v.
  ghost predicate IsSource(g: Digraph, impacted: set<Name>, s: Option<Name>, v: Name) {
    exists p :: RootPathTo(g, p, v) && LastImpacted(impacted, p[..|p| - 1]) == s
  }

  // The only edge into v comes from s, or there is none.
  ghost predicate HangsFrom(c: Digraph, v: Name, s: Option<Name>) {
    Predecessors(c.edges, v) == match s { case None => {} case Some(p) => {p} }
  }

  lemma HangsFromOne(c: Digraph, v: Name, s: Option<Name>, s': Option<Name>)
    requires HangsFrom(c, v, s) && HangsFrom(c, v, s')
    ensures s == s'
  {
    if s.Some? {
      assert s.value in Predecessors(c.edges, v);
    }
    if s'.Some? {
      assert s'.value in Predecessors(c.edges, v);
    }
  }

  lemma {:induction false} LastImpactedOnPath(impacted: set<Name>, p: seq<Name>)
    ensures match LastImpacted(impacted, p)
            case None => forall i :: 0 <= i < |p| ==> p[i] !in impacted
            case Some(v) => v in impacted &&
                            exists i :: 0 <= i < |p| && p[i] == v && forall j :: i < j < |p| ==> p[j] !in impacted
    decreases |p|
  {
    if p != [] && p[|p| - 1] !in impacted {
      LastImpactedOnPath(impacted, p[..|p| - 1]);
    }
  }

  // The contracted graph so far

  // Its vertices are impacted, and its edges stand for paths of the original.
  ghost predicate Sound(g: Digraph, impacted: set<Name>, c: Digraph) {
    && c.vertices <= impacted * g.vertices
    && (forall e :: e in c.edges ==> e.0 in c.vertices && e.1 in c.vertices)
    && (forall e :: e in c.edges ==> Reaches(g.edges, e.0, e.1))
  }

  // d extends c: old vertices keep their incoming edges, each new one hangs from one of its sources.
  ghost predicate Grows(g: Digraph, impacted: set<Name>, c: Digraph, d: Digraph) {
    && Sound(g, impacted, d)
    && c.vertices <= d.vertices
    && (forall v :: v in c.vertices ==> Predecessors(d.edges, v) == Predecessors(c.edges, v))
    && (forall v :: v in d.vertices && v !in c.vertices ==>
          exists s :: HangsFrom(d, v, s) && IsSource(g, impacted, s, v))
  }

  lemma GrowsTransitive(g: Digraph, impacted: set<Name>, b: Digraph, c: Digraph, d: Digraph)
    requires Grows(g, impacted, b, c) && Grows(g, impacted, c, d)
    ensures Grows(g, impacted, b, d)
  {
    forall v | v in d.vertices && v !in b.vertices
      ensures exists s :: HangsFrom(d, v, s) && IsSource(g, impacted, s, v)
    {
      if v in c.vertices {
        var s :| HangsFrom(c, v, s) && IsSource(g, impacted, s, v);
        assert HangsFrom(d, v, s);
      }
    }
  }

  // Edges that stand for paths cannot lead back along the original graph.
  lemma {:induction false} SoundReaches(g: Digraph, impacted: set<Name>, c: Digraph, p: seq<Name>)
    requires Sound(g, impacted, c) && IsPath(c.edges, p)
    ensures Reaches(g.edges, p[0], p[|p| - 1])
    decreases |p|
  {
    if |p| == 1 {
      ReachesSelf(g.edges, p[0]);
    } else {
      assert (p[0], p[1]) in c.edges;
      SoundReaches(g, impacted, c, p[1..]);
      ReachesTransitive(g.edges, p[0], p[1], p[|p| - 1]);
    }
  }

  // The last step of a call: the edge from the parent, added after the subtree.
  lemma HangingSucceeds(g: Digraph, impacted: set<Name>, trail: seq<Name>, c: Digraph)
    requires IsDag(g) && Sound(g, impacted, c)
    requires IsPath(g.edges, trail) && trail[0] in Roots(g)
    requires trail[|trail| - 1] in c.vertices && Predecessors(c.edges, trail[|trail| - 1]) == {}
    requires LastImpacted(impacted, trail[..|trail| - 1]).Some?
    requires LastImpacted(impacted, trail[..|trail| - 1]).value in c.vertices
    ensures var v, s := trail[|trail| - 1], LastImpacted(impacted, trail[..|trail| - 1]);
            var r := WithEdge(c, s.value, v);
            r.Success? && Sound(g, impacted, r.value) && HangsFrom(r.value, v, s)
            && r.value.vertices == c.vertices
            && forall w :: w != v ==> Predecessors(r.value.edges, w) == Predecessors(c.edges, w)
  {
    var n := |trail| - 1;
    var v, p := trail[n], LastImpacted(impacted, trail[..n]).value;
    LastImpactedOnPath(impacted, trail[..n]);
    var i :| 0 <= i < n && trail[..n][i] == p;
    PathReaches(g.edges, trail, i, n);
    DistinctOnPath(g.edges, trail, i, n);
    assert p !in Predecessors(c.edges, v);
    if Reaches(c.edges, v, p) {
      var q :| Connects(c.edges, q, v, p);
      SoundReaches(g, impacted, c, q);
      NoReachBack(g.edges, p, v);
      assert false;
    }
    var d := c.edges + {(p, v)};
    assert Predecessors(d, v) == {p};
    forall w | w != v ensures Predecessors(d, w) == Predecessors(c.edges, w) {}
  }

  // No call fails: the edge it adds last is neither a duplicate nor the end of a cycle.
  lemma {:induction false} CollapsedGrows(g: Digraph, impacted: set<Name>, trail: seq<Name>, t: Visit, c: Digraph)
    requires IsDag(g) && Walks(g.edges, t) && Sound(g, impacted, c)
    requires IsPath(g.edges, trail) && trail[0] in Roots(g) && trail[|trail| - 1] == t.node
    requires LastImpacted(impacted, trail[..|trail| - 1]).Some? ==>
      LastImpacted(impacted, trail[..|trail| - 1]).value in c.vertices
    ensures var r := Collapsed(impacted, LastImpacted(impacted, trail[..|trail| - 1]), t, c);
            r.Success? && Grows(g, impacted, c, r.value)
    decreases t, 1
  {
    var v, s := t.node, LastImpacted(impacted, trail[..|trail| - 1]);
    if v !in impacted {
      CollapsedEachGrows(g, impacted, trail, t.kids, c);
    } else if v !in c.vertices {
      TrailInside(g, trail);
      var added := WithVertex(c, v).value;
      CollapsedEachGrows(g, impacted, trail, t.kids, added);
      var below := CollapsedEach(impacted, Some(v), t.kids, added).value;
      NewcomerIsBare(c, v);
      assert RootPathTo(g, trail, v);
      assert IsSource(g, impacted, s, v);
      if s.Some? {
        HangingSucceeds(g, impacted, trail, below);
        var d := WithEdge(below, s.value, v).value;
        GrowsAroundHanging(g, impacted, c, added, below, d, v, s);
      } else {
        GrowsAroundHanging(g, impacted, c, added, below, below, v, s);
      }
    }
  }

  lemma TrailInside(g: Digraph, trail: seq<Name>)
    requires IsDag(g) && IsPath(g.edges, trail) && trail[0] in Roots(g)
    ensures trail[|trail| - 1] in g.vertices
  {
    assert Connects(g.edges, trail, trail[0], trail[|trail| - 1]);
    ReachesInside(g, trail[0], trail[|trail| - 1]);
  }

  lemma NewcomerIsBare(c: Digraph, v: Name)
    requires forall e :: e in c.edges ==> e.1 in c.vertices
    requires v !in c.vertices
    ensures Predecessors(c.edges, v) == {}
  {}

  lemma GrowsAroundHanging(g: Digraph, impacted: set<Name>, c: Digraph, added: Digraph, below: Digraph, d: Digraph,
                           v: Name, s: Option<Name>)
    requires added == Digraph(c.vertices + {v}, c.edges) && v !in c.vertices
    requires Grows(g, impacted, added, below) && Sound(g, impacted, d)
    requires d.vertices == below.vertices && HangsFrom(d, v, s) && IsSource(g, impacted, s, v)
    requires forall w :: w != v ==> Predecessors(d.edges, w) == Predecessors(below.edges, w)
    ensures Grows(g, impacted, c, d)
  {
    forall w | w in d.vertices && w !in c.vertices
      ensures exists s' :: HangsFrom(d, w, s') && IsSource(g, impacted, s', w)
    {
      if w != v {
        var s' :| HangsFrom(below, w, s') && IsSource(g, impacted, s', w);
        assert HangsFrom(d, w, s');
      }
    }
  }

  lemma {:induction false} CollapsedEachGrows(g: Digraph, impacted: set<Name>, trail: seq<Name>, ts: seq<Visit>,
                                              c: Digraph)
    requires IsDag(g) && Sound(g, impacted, c)
    requires forall t :: t in ts ==> Walks(g.edges, t)
    requires IsPath(g.edges, trail) && trail[0] in Roots(g)
    requires Nodes(ts) <= Successors(g.edges, trail[|trail| - 1])
    requires LastImpacted(impacted, trail).Some? ==> LastImpacted(impacted, trail).value in c.vertices
    ensures var r := CollapsedEach(impacted, LastImpacted(impacted, trail), ts, c);
            r.Success? && Grows(g, impacted, c, r.value)
    decreases ts, 0
  {
    if ts != [] {
      var t := ts[0];
      assert t.node in Nodes(ts);
      var longer := trail + [t.node];
      assert longer[..|longer| - 1] == trail;
      CollapsedGrows(g, impacted, longer, t, c);
      var first := Collapsed(impacted, LastImpacted(impacted, trail), t, c).value;
      assert Nodes(ts[1..]) <= Nodes(ts);
      CollapsedEachGrows(g, impacted, trail, ts[1..], first);
      GrowsTransitive(g, impacted, c, first,
        CollapsedEach(impacted, LastImpacted(impacted, trail), ts[1..], first).value);
    }
  }

  // Coverage

  // Every impacted vertex at or below v is in the contracted graph.
  ghost predicate Covers(g: Digraph, impacted: set<Name>, c: Digraph, v: Name) {
    forall w :: w in impacted && Reaches(g.edges, v, w) ==> w in c.vertices
  }

  // Only the vertices whose subtrees are still being walked may lack a descendant.
  ghost predicate CoversExcept(g: Digraph, impacted: set<Name>, c: Digraph, open: set<Name>) {
    forall v :: v in c.vertices && v !in open ==> Covers(g, impacted, c, v)
  }

  lemma CoversFromChildren(g: Digraph, impacted: set<Name>, c: Digraph, v: Name)
    requires v in impacted ==> v in c.vertices
    requires forall w :: w in Successors(g.edges, v) ==> Covers(g, impacted, c, w)
    ensures Covers(g, impacted, c, v)
  {
    forall w | w in impacted && Reaches(g.edges, v, w) ensures w in c.vertices {
      if w != v {
        var u := ReachesFirstEdge(g.edges, v, w);
        assert u in Successors(g.edges, v);
      }
    }
  }

  // The early return on a present vertex never loses a descendant: a present vertex that is
  // still being walked would be its own descendant.
  lemma {:induction false} CollapsedCovers(g: Digraph, impacted: set<Name>, parent: Option<Name>, t: Visit, c: Digraph,
                                           open: set<Name>)
    requires IsDag(g) && Walks(g.edges, t) && CoversExcept(g, impacted, c, open)
    requires forall o :: o in open ==> !Reaches(g.edges, t.node, o)
    requires Collapsed(impacted, parent, t, c).Success?
    ensures var d := Collapsed(impacted, parent, t, c).value;
            c.vertices <= d.vertices && CoversExcept(g, impacted, d, open) && Covers(g, impacted, d, t.node)
    decreases t, 1
  {
    var v := t.node;
    if v !in impacted {
      CollapsedEachCovers(g, impacted, parent, v, t.kids, c, open);
      CoversFromChildren(g, impacted, Collapsed(impacted, parent, t, c).value, v);
    } else if v in c.vertices {
      ReachesSelf(g.edges, v);
    } else {
      var added := WithVertex(c, v).value;
      CollapsedEachCovers(g, impacted, Some(v), v, t.kids, added, open + {v});
      CoversFromChildren(g, impacted, CollapsedEach(impacted, Some(v), t.kids, added).value, v);
    }
  }

  lemma {:induction false} CollapsedEachCovers(g: Digraph, impacted: set<Name>, parent: Option<Name>, v: Name,
                                               ts: seq<Visit>, c: Digraph, open: set<Name>)
    requires IsDag(g) && CoversExcept(g, impacted, c, open)
    requires forall t :: t in ts ==> Walks(g.edges, t)
    requires Nodes(ts) <= Successors(g.edges, v)
    requires forall o :: o in open && o != v ==> !Reaches(g.edges, v, o)
    requires CollapsedEach(impacted, parent, ts, c).Success?
    ensures var d := CollapsedEach(impacted, parent, ts, c).value;
            c.vertices <= d.vertices && CoversExcept(g, impacted, d, open)
            && forall w :: w in Nodes(ts) ==> Covers(g, impacted, d, w)
    decreases ts, 0
  {
    if ts != [] {
      var t := ts[0];
      assert t.node in Nodes(ts);
      assert (v, t.node) in g.edges;
      ReachesEdge(g.edges, v, t.node);
      forall o | o in open ensures !Reaches(g.edges, t.node, o) {
        if Reaches(g.edges, t.node, o) {
          ReachesTransitive(g.edges, v, t.node, o);
        }
      }
      CollapsedCovers(g, impacted, parent, t, c, open);
      var first := Collapsed(impacted, parent, t, c).value;
      assert Nodes(ts[1..]) <= Nodes(ts);
      CollapsedEachCovers(g, impacted, parent, v, ts[1..], first, open);
      var d := CollapsedEach(impacted, parent, ts, c).value;
      forall w | w in Nodes(ts) ensures Covers(g, impacted, d, w) {
        var k :| k in ts && k.node == w;
        if k == t {
          assert Covers(g, impacted, first, w);
        } else {
          assert k in ts[1..];
        }
      }
    }
  }

  // The roots

  lemma {:induction false} RootsGrow(g: Digraph, impacted: set<Name>, ts: seq<Visit>, c: Digraph)
    requires IsDag(g) && Sound(g, impacted, c) && CoversExcept(g, impacted, c, {})
    requires forall t :: t in ts ==> Walks(g.edges, t) && t.node in Roots(g)
    ensures var r := CollapsedEach(impacted, None, ts, c);
            && r.Success? && Grows(g, impacted, c, r.value) && CoversExcept(g, impacted, r.value, {})
            && forall v :: v in Nodes(ts) ==> Covers(g, impacted, r.value, v)
    decreases ts
  {
    if ts != [] {
      var t := ts[0];
      assert [t.node][..0] == [];
      CollapsedGrows(g, impacted, [t.node], t, c);
      CollapsedCovers(g, impacted, None, t, c, {});
      var first := Collapsed(impacted, None, t, c).value;
      RootsGrow(g, impacted, ts[1..], first);
      var d := CollapsedEach(impacted, None, ts[1..], first).value;
      GrowsTransitive(g, impacted, c, first, d);
      forall v | v in Nodes(ts) ensures Covers(g, impacted, d, v) {
        var k :| k in ts && k.node == v;
        if k == t {
          assert Covers(g, impacted, first, v);
        } else {
          assert k in ts[1..];
        }
      }
    }
  }

  // The contraction of a DAG, for any walk: it never fails, its vertices are exactly the impacted
  // ones, every edge stands for a path, and each vertex hangs from at most one parent, which is one
  // of its sources.
  ghost predicate Contracts(g: Digraph, impacted: set<Name>, c: Digraph) {
    && c.vertices == impacted * g.vertices
    && IsDag(c)
    && (forall e :: e in c.edges ==> Reaches(g.edges, e.0, e.1))
    && (forall v :: v in c.vertices ==> exists s :: HangsFrom(c, v, s) && IsSource(g, impacted, s, v))
  }

  lemma ParentIn(g: Digraph, impacted: set<Name>, c: Digraph, v: Name) returns (s: Option<Name>)
    requires Contracts(g, impacted, c) && v in c.vertices
    ensures HangsFrom(c, v, s)
  {
    s :| HangsFrom(c, v, s) && IsSource(g, impacted, s, v);
  }

  lemma HangsFromEdge(c: Digraph, e: (Name, Name), s: Option<Name>)
    requires e in c.edges && HangsFrom(c, e.1, s)
    ensures s == Some(e.0)
  {
    assert e.0 in Predecessors(c.edges, e.1);
  }

  lemma OneParentInContraction(g: Digraph, impacted: set<Name>, c: Digraph)
    requires Contracts(g, impacted, c)
    ensures OneParentEach(c)
  {
    forall e, f | e in c.edges && f in c.edges && e.1 == f.1 ensures e == f {
      var s := ParentIn(g, impacted, c, e.1);
      HangsFromEdge(c, e, s);
      HangsFromEdge(c, f, s);
    }
  }

  lemma ContractionOfAnyWalk(g: Digraph, impacted: set<Name>, ts: seq<Visit>)
    requires IsDag(g) && WalksAll(g, ts)
    ensures var r := CollapsedEach(impacted, None, ts, Digraph({}, {}));
            r.Success? && Contracts(g, impacted, r.value)
  {
    var empty := Digraph({}, {});
    forall t | t in ts ensures t.node in Roots(g) {
      assert t.node in Nodes(ts);
    }
    RootsGrow(g, impacted, ts, empty);
    var c := CollapsedEach(impacted, None, ts, empty).value;
    forall v | v in impacted * g.vertices ensures v in c.vertices {
      var p := RootPath(g, v);
      assert p[0] in Nodes(ts) && Connects(g.edges, p, p[0], v);
      assert Covers(g, impacted, c, p[0]);
    }
    SoundIsDag(g, impacted, c);
  }

  lemma SoundIsDag(g: Digraph, impacted: set<Name>, c: Digraph)
    requires IsDag(g) && Sound(g, impacted, c)
    requires forall v :: v in c.vertices ==> exists s :: HangsFrom(c, v, s) && IsSource(g, impacted, s, v)
    ensures IsDag(c)
  {
    forall e | e in c.edges ensures !Reaches(c.edges, e.1, e.0) {
      if Reaches(c.edges, e.1, e.0) {
        var q :| Connects(c.edges, q, e.1, e.0);
        SoundReaches(g, impacted, c, q);
        NoReachBack(g.edges, e.0, e.1);
        SourceIsAbove(g, impacted, c, e);
        assert false;
      }
    }
  }

  lemma SourceIsAbove(g: Digraph, impacted: set<Name>, c: Digraph, e: (Name, Name))
    requires IsDag(g) && e in c.edges && e.1 in c.vertices
    requires exists s :: HangsFrom(c, e.1, s) && IsSource(g, impacted, s, e.1)
    ensures e.0 != e.1
    ensures IsSource(g, impacted, Some(e.0), e.1)
  {
    var s :| HangsFrom(c, e.1, s) && IsSource(g, impacted, s, e.1);
    assert e.0 in Predecessors(c.edges, e.1);
    var p :| RootPathTo(g, p, e.1) && LastImpacted(impacted, p[..|p| - 1]) == s;
    LastImpactedOnPath(impacted, p[..|p| - 1]);
    var i :| 0 <= i < |p| - 1 && p[..|p| - 1][i] == e.0;
    DistinctOnPath(g.edges, p, i, |p| - 1);
  }
}
