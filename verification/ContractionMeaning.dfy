/**
 What the contraction keeps of the dependency order. Each impacted vertex hangs from one of its
 sources, any of which some walk picks; so the order survives every walk exactly when no impacted
 vertex has two sources.
 */
module ContractionMeaning {
  import opened Wrappers
  import opened Graphs
  import opened Collapse

  ghost function Contraction(g: Digraph, impacted: set<Name>, ts: seq<Visit>): Digraph
    requires IsDag(g) && WalksAll(g, ts)
  {
    ContractionOfAnyWalk(g, impacted, ts);
    CollapsedEach(impacted, None, ts, Digraph({}, {})).value
  }

  // u comes before v in the contraction exactly when it does in the dependency graph.
  ghost predicate KeepsOrder(g: Digraph, impacted: set<Name>, c: Digraph) {
    forall u, v :: u in impacted * g.vertices && v in impacted * g.vertices ==>
                     (Reaches(g.edges, u, v) <==> Reaches(c.edges, u, v))
  }

  ghost predicate OneSourceEach(g: Digraph, impacted: set<Name>) {
    forall v, s, s' ::
      v in impacted * g.vertices && IsSource(g, impacted, s, v) && IsSource(g, impacted, s', v) ==> s == s'
  }

  // Sources in terms of the graph alone

  // A path that leaves its first vertex and meets no impacted vertex before its last.
  ghost predicate Quiet(edges: set<(Name, Name)>, impacted: set<Name>, p: seq<Name>) {
    && IsPath(edges, p) && |p| > 1
    && forall i :: 0 < i < |p| - 1 ==> p[i] !in impacted
  }

  lemma {:induction false} LastImpactedOfJoin(impacted: set<Name>, r: seq<Name>, q: seq<Name>)
    requires forall i :: 0 <= i < |q| ==> q[i] !in impacted
    ensures LastImpacted(impacted, r + q) == LastImpacted(impacted, r)
    decreases |q|
  {
    if q == [] {
      assert r + q == r;
    } else {
      assert (r + q)[..|r + q| - 1] == r + q[..|q| - 1];
      LastImpactedOfJoin(impacted, r, q[..|q| - 1]);
    }
  }

  // The parents a vertex may get are its nearest impacted ancestors.
  lemma SourceIsNearestAncestor(g: Digraph, impacted: set<Name>, a: Name, v: Name)
    requires IsDag(g) && v in g.vertices
    ensures IsSource(g, impacted, Some(a), v) <==>
            a in impacted * g.vertices && exists p :: Quiet(g.edges, impacted, p) && p[0] == a && p[|p| - 1] == v
  {
    if IsSource(g, impacted, Some(a), v) {
      var p := QuietPathFrom(g, impacted, a, v);
    }
    if a in impacted * g.vertices && exists p :: Quiet(g.edges, impacted, p) && p[0] == a && p[|p| - 1] == v {
      var p :| Quiet(g.edges, impacted, p) && p[0] == a && p[|p| - 1] == v;
      QuietPathMakesSource(g, impacted, p);
    }
  }

  lemma QuietPathFrom(g: Digraph, impacted: set<Name>, a: Name, v: Name) returns (p: seq<Name>)
    requires IsDag(g) && IsSource(g, impacted, Some(a), v)
    ensures a in impacted * g.vertices && Quiet(g.edges, impacted, p) && p[0] == a && p[|p| - 1] == v
  {
    var whole :| RootPathTo(g, whole, v) && LastImpacted(impacted, whole[..|whole| - 1]) == Some(a);
    var i := LastImpactedAt(impacted, whole[..|whole| - 1], a);
    TrailInside(g, whole[..i + 1]);
    p := whole[i..];
    assert whole == whole[..|whole| - 1] + [v];
    QuietTail(g.edges, impacted, whole[..|whole| - 1], v, i);
  }

  lemma LastImpactedAt(impacted: set<Name>, q: seq<Name>, a: Name) returns (i: nat)
    requires LastImpacted(impacted, q) == Some(a)
    ensures i < |q| && q[i] == a && a in impacted && forall j :: i < j < |q| ==> q[j] !in impacted
  {
    LastImpactedOnPath(impacted, q);
    i :| 0 <= i < |q| && q[i] == a && forall j :: i < j < |q| ==> q[j] !in impacted;
  }

  lemma QuietTail(edges: set<(Name, Name)>, impacted: set<Name>, q: seq<Name>, v: Name, i: nat)
    requires IsPath(edges, q + [v]) && i < |q|
    requires forall j :: i < j < |q| ==> q[j] !in impacted
    ensures Quiet(edges, impacted, (q + [v])[i..])
  {}

  lemma QuietPathMakesSource(g: Digraph, impacted: set<Name>, p: seq<Name>)
    requires IsDag(g) && Quiet(g.edges, impacted, p) && p[0] in impacted * g.vertices
    ensures IsSource(g, impacted, Some(p[0]), p[|p| - 1])
  {
    var r := RootPath(g, p[0]);
    var whole := r + p[1..];
    assert RootPathTo(g, whole, p[|p| - 1]);
    assert whole[..|whole| - 1] == r + p[1..|p| - 1];
    LastImpactedOfJoin(impacted, r, p[1..|p| - 1]);
  }

  // Walks that exist

  ghost function Unfolded(g: Digraph, v: Name): (t: Visit)
    requires IsDag(g)
    ensures t.node == v && Walks(g.edges, t)
    decreases Below(g, v)
  {
    Visit(v, UnfoldedEach(g, v, Successors(g.edges, v)))
  }

  ghost function UnfoldedEach(g: Digraph, v: Name, vs: set<Name>): (ts: seq<Visit>)
    requires IsDag(g) && vs <= Successors(g.edges, v)
    ensures Distinct(ts) && Nodes(ts) == vs && forall t :: t in ts ==> Walks(g.edges, t)
    decreases Below(g, v), vs
  {
    if vs == {} then []
    else
      var w :| w in vs;
      assert w in Successors(g.edges, v);
      BelowShrinks(g, v, w);
      var rest := UnfoldedEach(g, v, vs - {w});
      NodesOfCons(Unfolded(g, w), rest);
      [Unfolded(g, w)] + rest
  }

  ghost function UnfoldedRoots(g: Digraph, vs: set<Name>): (ts: seq<Visit>)
    requires IsDag(g)
    ensures Distinct(ts) && Nodes(ts) == vs && forall t :: t in ts ==> Walks(g.edges, t)
  {
    if vs == {} then []
    else
      var w :| w in vs;
      var rest := UnfoldedRoots(g, vs - {w});
      NodesOfCons(Unfolded(g, w), rest);
      [Unfolded(g, w)] + rest
  }

  // The walk that follows a given path first.
  ghost function Guided(g: Digraph, p: seq<Name>): (t: Visit)
    requires IsDag(g) && IsPath(g.edges, p)
    ensures t.node == p[0] && Walks(g.edges, t)
    decreases |p|
  {
    if |p| == 1 then Unfolded(g, p[0])
    else
      assert (p[0], p[1]) in g.edges;
      assert p[1] in Successors(g.edges, p[0]);
      var rest := UnfoldedEach(g, p[0], Successors(g.edges, p[0]) - {p[1]});
      NodesOfCons(Guided(g, p[1..]), rest);
      Visit(p[0], [Guided(g, p[1..])] + rest)
  }

  ghost function GuidedRoots(g: Digraph, p: seq<Name>): (ts: seq<Visit>)
    requires IsDag(g) && IsPath(g.edges, p) && p[0] in Roots(g)
    ensures WalksAll(g, ts)
  {
    var rest := UnfoldedRoots(g, Roots(g) - {p[0]});
    NodesOfCons(Guided(g, p), rest);
    [Guided(g, p)] + rest
  }

  // Following a path from its i-th vertex on, all new, its last vertex hangs from the last impacted before it.
  lemma {:induction false} GuidedHangs(g: Digraph, impacted: set<Name>, p: seq<Name>, i: nat, c: Digraph)
    requires IsDag(g) && Sound(g, impacted, c) && IsPath(g.edges, p) && p[0] in Roots(g) && i < |p|
    requires p[|p| - 1] in impacted
    requires forall j :: i <= j < |p| ==> p[j] !in c.vertices
    requires LastImpacted(impacted, p[..i]).Some? ==> LastImpacted(impacted, p[..i]).value in c.vertices
    ensures IsPath(g.edges, p[i..])
    ensures var d := Collapsed(impacted, LastImpacted(impacted, p[..i]), Guided(g, p[i..]), c);
            d.Success? && p[|p| - 1] in d.value.vertices
            && HangsFrom(d.value, p[|p| - 1], LastImpacted(impacted, p[..|p| - 1]))
    decreases |p| - i
  {
    var t, trail, v := Guided(g, p[i..]), p[..i + 1], p[|p| - 1];
    assert trail[..|trail| - 1] == p[..i];
    TrailInside(g, trail);
    if i == |p| - 1 {
      GuidedEnd(g, impacted, trail, t, c);
    } else {
      forall j | i < j < |p| ensures p[j] != p[i] {
        DistinctOnPath(g.edges, p, i, j);
      }
      GuidedHangs(g, impacted, p, i + 1, if p[i] in impacted then WithVertex(c, p[i]).value else c);
      assert p[i..][1..] == p[i + 1..];
      assert t.kids[0] == Guided(g, p[i + 1..]);
      KeptByTheWalk(g, impacted, trail, t, c, v);
    }
  }

  // What the first child has hung stays so to the end of the call.
  lemma KeptByTheWalk(g: Digraph, impacted: set<Name>, trail: seq<Name>, t: Visit, c: Digraph, v: Name)
    requires IsDag(g) && Walks(g.edges, t) && Sound(g, impacted, c) && t.kids != []
    requires IsPath(g.edges, trail) && trail[0] in Roots(g) && trail[|trail| - 1] == t.node && t.node in g.vertices
    requires LastImpacted(impacted, trail[..|trail| - 1]).Some? ==>
      LastImpacted(impacted, trail[..|trail| - 1]).value in c.vertices
    requires t.node !in c.vertices && v != t.node
    requires var start := if t.node in impacted then WithVertex(c, t.node).value else c;
             var first := Collapsed(impacted, LastImpacted(impacted, trail), t.kids[0], start);
             first.Success? && v in first.value.vertices
    ensures var start := if t.node in impacted then WithVertex(c, t.node).value else c;
            var first := Collapsed(impacted, LastImpacted(impacted, trail), t.kids[0], start).value;
            var d := Collapsed(impacted, LastImpacted(impacted, trail[..|trail| - 1]), t, c);
            d.Success? && v in d.value.vertices && Predecessors(d.value.edges, v) == Predecessors(first.edges, v)
  {
    KeptByTheRest(g, impacted, trail, t, if t.node in impacted then WithVertex(c, t.node).value else c, v);
    if t.node in impacted {
      KeptByTheHanging(g, impacted, trail, t, c, v);
    }
  }

  lemma GuidedEnd(g: Digraph, impacted: set<Name>, trail: seq<Name>, t: Visit, c: Digraph)
    requires IsDag(g) && Walks(g.edges, t) && Sound(g, impacted, c)
    requires IsPath(g.edges, trail) && trail[0] in Roots(g) && trail[|trail| - 1] == t.node
    requires LastImpacted(impacted, trail[..|trail| - 1]).Some? ==>
      LastImpacted(impacted, trail[..|trail| - 1]).value in c.vertices
    requires t.node in impacted && t.node !in c.vertices
    ensures var d := Collapsed(impacted, LastImpacted(impacted, trail[..|trail| - 1]), t, c);
            d.Success? && t.node in d.value.vertices &&
              HangsFrom(d.value, t.node, LastImpacted(impacted, trail[..|trail| - 1]))
  {
    var v := t.node;
    TrailInside(g, trail);
    var added := WithVertex(c, v).value;
    CollapsedEachGrows(g, impacted, trail, t.kids, added);
    var below := CollapsedEach(impacted, Some(v), t.kids, added).value;
    NewcomerIsBare(c, v);
    if LastImpacted(impacted, trail[..|trail| - 1]).Some? {
      HangingSucceeds(g, impacted, trail, below);
    }
  }

  // Visiting the other children does not move a vertex that hangs already.
  lemma KeptByTheRest(g: Digraph, impacted: set<Name>, trail: seq<Name>, t: Visit, c: Digraph, v: Name)
    requires IsDag(g) && Walks(g.edges, t) && Sound(g, impacted, c) && t.kids != []
    requires IsPath(g.edges, trail) && trail[0] in Roots(g) && trail[|trail| - 1] == t.node
    requires LastImpacted(impacted, trail).Some? ==> LastImpacted(impacted, trail).value in c.vertices
    requires var first := Collapsed(impacted, LastImpacted(impacted, trail), t.kids[0], c);
             first.Success? && v in first.value.vertices
    ensures var first := Collapsed(impacted, LastImpacted(impacted, trail), t.kids[0], c).value;
            var below := CollapsedEach(impacted, LastImpacted(impacted, trail), t.kids, c);
            below.Success? && v in below.value.vertices &&
              Predecessors(below.value.edges, v) == Predecessors(first.edges, v)
  {
    var k := t.kids[0];
    assert k in t.kids && k.node in Nodes(t.kids);
    var longer := trail + [k.node];
    assert longer[..|longer| - 1] == trail;
    CollapsedGrows(g, impacted, longer, k, c);
    var first := Collapsed(impacted, LastImpacted(impacted, trail), k, c).value;
    assert Nodes(t.kids[1..]) <= Nodes(t.kids);
    CollapsedEachGrows(g, impacted, trail, t.kids[1..], first);
  }

  // Nor does hanging the vertex whose children were visited.
  lemma KeptByTheHanging(g: Digraph, impacted: set<Name>, trail: seq<Name>, t: Visit, c: Digraph, v: Name)
    requires IsDag(g) && Walks(g.edges, t) && Sound(g, impacted, c)
    requires IsPath(g.edges, trail) && trail[0] in Roots(g) && trail[|trail| - 1] == t.node
    requires LastImpacted(impacted, trail[..|trail| - 1]).Some? ==>
      LastImpacted(impacted, trail[..|trail| - 1]).value in c.vertices
    requires t.node in impacted * g.vertices && t.node !in c.vertices && v != t.node
    requires CollapsedEach(impacted, Some(t.node), t.kids, WithVertex(c, t.node).value).Success?
    requires v in CollapsedEach(impacted, Some(t.node), t.kids, WithVertex(c, t.node).value).value.vertices
    ensures var below := CollapsedEach(impacted, Some(t.node), t.kids, WithVertex(c, t.node).value).value;
            var d := Collapsed(impacted, LastImpacted(impacted, trail[..|trail| - 1]), t, c);
            d.Success? && v in d.value.vertices && Predecessors(d.value.edges, v) == Predecessors(below.edges, v)
  {
    var added := WithVertex(c, t.node).value;
    CollapsedEachGrows(g, impacted, trail, t.kids, added);
    NewcomerIsBare(c, t.node);
    if LastImpacted(impacted, trail[..|trail| - 1]).Some? {
      HangingSucceeds(g, impacted, trail, CollapsedEach(impacted, Some(t.node), t.kids, added).value);
    }
  }

  lemma GuidedRootsHang(g: Digraph, impacted: set<Name>, p: seq<Name>)
    requires IsDag(g) && IsPath(g.edges, p) && p[0] in Roots(g) && p[|p| - 1] in impacted
    ensures HangsFrom(Contraction(g, impacted, GuidedRoots(g, p)), p[|p| - 1], LastImpacted(impacted, p[..|p| - 1]))
  {
    var empty, ts, v := Digraph({}, {}), GuidedRoots(g, p), p[|p| - 1];
    assert p[..0] == [] && p[0..] == p;
    GuidedHangs(g, impacted, p, 0, empty);
    var first := Collapsed(impacted, None, ts[0], empty).value;
    assert [ts[0].node][..0] == [];
    CollapsedGrows(g, impacted, [ts[0].node], ts[0], empty);
    CollapsedCovers(g, impacted, None, ts[0], empty, {});
    forall t | t in ts[1..] ensures Walks(g.edges, t) && t.node in Roots(g) {
      assert t in ts && t.node in Nodes(ts);
    }
    RootsGrow(g, impacted, ts[1..], first);
  }

  // The parents a vertex gets, over all walks, are exactly its sources.
  lemma ParentsAreSources(g: Digraph, impacted: set<Name>, v: Name, s: Option<Name>)
    requires IsDag(g) && v in impacted * g.vertices
    ensures (exists ts :: WalksAll(g, ts) && HangsFrom(Contraction(g, impacted, ts), v, s)) <==>
      IsSource(g, impacted, s, v)
  {
    if IsSource(g, impacted, s, v) {
      var p :| RootPathTo(g, p, v) && LastImpacted(impacted, p[..|p| - 1]) == s;
      GuidedRootsHang(g, impacted, p);
    }
    forall ts | WalksAll(g, ts) && HangsFrom(Contraction(g, impacted, ts), v, s) ensures IsSource(g, impacted, s, v) {
      ContractionOfAnyWalk(g, impacted, ts);
      var c := Contraction(g, impacted, ts);
      var s' :| HangsFrom(c, v, s') && IsSource(g, impacted, s', v);
      HangsFromOne(c, v, s, s');
    }
  }

  // Order

  // Soundness for every walk: the contraction adds no order of its own.
  lemma NoNewOrder(g: Digraph, impacted: set<Name>, c: Digraph, u: Name, v: Name)
    requires Contracts(g, impacted, c) && Reaches(c.edges, u, v)
    ensures Reaches(g.edges, u, v)
  {
    var p :| Connects(c.edges, p, u, v);
    SoundReaches(g, impacted, c, p);
  }

  // With one source each, the last impacted vertex of a path is the parent of its end.
  lemma {:induction false} OrderKept(g: Digraph, impacted: set<Name>, c: Digraph, p: seq<Name>)
    requires IsDag(g) && Contracts(g, impacted, c) && OneSourceEach(g, impacted)
    requires IsPath(g.edges, p) && p[0] in impacted * g.vertices && p[|p| - 1] in impacted
    ensures Reaches(c.edges, p[0], p[|p| - 1])
    decreases |p|
  {
    var n := |p| - 1;
    var u, v := p[0], p[n];
    if n == 0 {
      ReachesSelf(c.edges, u);
    } else {
      var i := NearestOnPath(g, impacted, p);
      OrderKept(g, impacted, c, p[..i + 1]);
      assert Connects(g.edges, p, u, v);
      ReachesInside(g, u, v);
      assert v in c.vertices;
      var s :| HangsFrom(c, v, s) && IsSource(g, impacted, s, v);
      assert p[i] in Predecessors(c.edges, v);
      ReachesEdge(c.edges, p[i], v);
      ReachesTransitive(c.edges, u, p[i], v);
    }
  }

  lemma NearestOnPath(g: Digraph, impacted: set<Name>, p: seq<Name>) returns (i: nat)
    requires IsDag(g) && IsPath(g.edges, p) && p[0] in impacted * g.vertices && |p| > 1
    ensures i < |p| - 1 && p[i] in impacted && IsSource(g, impacted, Some(p[i]), p[|p| - 1])
  {
    var q, v := p[..|p| - 1], p[|p| - 1];
    assert q[0] == p[0];
    LastImpactedOnPath(impacted, q);
    var w := LastImpacted(impacted, q).value;
    i :| 0 <= i < |q| && q[i] == w && forall j :: i < j < |q| ==> q[j] !in impacted;
    assert forall j :: i < j < |q| ==> p[j] == q[j];
    assert Quiet(g.edges, impacted, p[i..]);
    assert Connects(g.edges, p[..i + 1], p[0], w);
    ReachesInside(g, p[0], w);
    assert Connects(g.edges, p, p[0], v);
    ReachesInside(g, p[0], v);
    SourceIsNearestAncestor(g, impacted, w, v);
  }

  lemma OneSourceKeepsOrder(g: Digraph, impacted: set<Name>, ts: seq<Visit>)
    requires IsDag(g) && WalksAll(g, ts) && OneSourceEach(g, impacted)
    ensures KeepsOrder(g, impacted, Contraction(g, impacted, ts))
  {
    var c := Contraction(g, impacted, ts);
    ContractionOfAnyWalk(g, impacted, ts);
    forall u, v | u in impacted * g.vertices && v in impacted * g.vertices
      ensures Reaches(g.edges, u, v) <==> Reaches(c.edges, u, v)
    {
      if Reaches(g.edges, u, v) {
        var p :| Connects(g.edges, p, u, v);
        OrderKept(g, impacted, c, p);
      }
      if Reaches(c.edges, u, v) {
        NoNewOrder(g, impacted, c, u, v);
      }
    }
  }

  // If v hangs from s, whatever precedes v is s or precedes it.
  lemma BeforeTheParent(c: Digraph, v: Name, s: Option<Name>, b: Name)
    requires HangsFrom(c, v, s) && Reaches(c.edges, b, v) && b != v
    ensures s.Some? && Reaches(c.edges, b, s.value)
  {
    var p :| Connects(c.edges, p, b, v);
    var n := |p| - 1;
    assert (p[n - 1], p[n]) in c.edges;
    assert p[n - 1] in Predecessors(c.edges, v);
    PathReaches(c.edges, p, 0, n - 1);
  }

  lemma SourceIsBefore(g: Digraph, impacted: set<Name>, a: Name, v: Name)
    requires IsDag(g) && v in g.vertices && IsSource(g, impacted, Some(a), v)
    ensures a in impacted * g.vertices && a != v && Reaches(g.edges, a, v)
  {
    SourceIsNearestAncestor(g, impacted, a, v);
    var p :| Quiet(g.edges, impacted, p) && p[0] == a && p[|p| - 1] == v;
    PathReaches(g.edges, p, 0, |p| - 1);
    DistinctOnPath(g.edges, p, 0, |p| - 1);
  }

  // The contraction along a walk forgets that v depends on b.
  ghost predicate Forgets(g: Digraph, impacted: set<Name>, ts: seq<Visit>, b: Name, v: Name)
    requires IsDag(g) && WalksAll(g, ts)
  {
    && b in impacted * g.vertices && v in impacted * g.vertices && b != v
    && Reaches(g.edges, b, v) && !Reaches(Contraction(g, impacted, ts).edges, b, v)
  }

  // The walk that hangs v from s forgets a source b that does not precede s.
  lemma OrderLost(g: Digraph, impacted: set<Name>, v: Name, s: Option<Name>, b: Name) returns (ts: seq<Visit>)
    requires IsDag(g) && v in impacted * g.vertices
    requires IsSource(g, impacted, s, v) && IsSource(g, impacted, Some(b), v)
    requires s.Some? ==> !Reaches(g.edges, b, s.value)
    ensures WalksAll(g, ts) && Forgets(g, impacted, ts, b, v)
  {
    ParentsAreSources(g, impacted, v, s);
    ts :| WalksAll(g, ts) && HangsFrom(Contraction(g, impacted, ts), v, s);
    var c := Contraction(g, impacted, ts);
    ContractionOfAnyWalk(g, impacted, ts);
    SourceIsBefore(g, impacted, b, v);
    if Reaches(c.edges, b, v) {
      BeforeTheParent(c, v, s, b);
      NoNewOrder(g, impacted, c, b, s.value);
    }
  }

  // A vertex with two sources: some walk forgets one of them.
  lemma OneOfTwoLost(g: Digraph, impacted: set<Name>, v: Name, s: Option<Name>, s': Option<Name>)
    returns (ts: seq<Visit>, b: Name)
    requires IsDag(g) && v in impacted * g.vertices
    requires IsSource(g, impacted, s, v) && IsSource(g, impacted, s', v) && s != s'
    ensures WalksAll(g, ts) && Forgets(g, impacted, ts, b, v)
  {
    if s == None || (s'.Some? && !Reaches(g.edges, s'.value, s.value)) {
      b := s'.value;
      ts := OrderLost(g, impacted, v, s, b);
    } else {
      b := s.value;
      if s'.Some? && Reaches(g.edges, b, s'.value) {
        NoReachBack(g.edges, b, s'.value);
      }
      ts := OrderLost(g, impacted, v, s', b);
    }
  }

  // The dependency order survives every walk if and only if no impacted vertex has two sources.
  lemma OrderSurvivesIff(g: Digraph, impacted: set<Name>)
    requires IsDag(g)
    ensures (forall ts :: WalksAll(g, ts) ==> KeepsOrder(g, impacted, Contraction(g, impacted, ts))) <==>
            OneSourceEach(g, impacted)
  {
    if OneSourceEach(g, impacted) {
      forall ts | WalksAll(g, ts) ensures KeepsOrder(g, impacted, Contraction(g, impacted, ts)) {
        OneSourceKeepsOrder(g, impacted, ts);
      }
    } else {
      var v, s, s' :|
        v in impacted * g.vertices && IsSource(g, impacted, s, v) && IsSource(g, impacted, s', v) && s != s';
      var ts, b := OneOfTwoLost(g, impacted, v, s, s');
    }
  }

  // A forest contracts without loss: one incoming edge at most means one root path, hence one source.
  lemma {:induction false} OneRootPath(g: Digraph, p: seq<Name>, q: seq<Name>, v: Name)
    requires OneParentEach(g) && RootPathTo(g, p, v) && RootPathTo(g, q, v)
    ensures p == q
    decreases |p|
  {
    var n, m := |p| - 1, |q| - 1;
    assert n > 0 ==> (p[n - 1], v) in g.edges;
    assert m > 0 ==> (q[m - 1], v) in g.edges;
    assert (exists u :: (u, v) in g.edges) ==> v !in Roots(g) by {
      if u :| (u, v) in g.edges {
        assert u in Predecessors(g.edges, v);
      }
    }
    if n > 0 && m > 0 {
      assert (p[n - 1], p[n]) in g.edges && (q[m - 1], q[m]) in g.edges;
      OneRootPath(g, p[..n], q[..m], p[n - 1]);
      assert p == p[..n] + [v] && q == q[..m] + [v];
    }
  }

  lemma ForestKeepsOrder(g: Digraph, impacted: set<Name>, ts: seq<Visit>)
    requires IsDag(g) && OneParentEach(g) && WalksAll(g, ts)
    ensures KeepsOrder(g, impacted, Contraction(g, impacted, ts))
  {
    forall v, s, s' | v in impacted * g.vertices && IsSource(g, impacted, s, v) && IsSource(g, impacted, s', v)
      ensures s == s'
    {
      var p :| RootPathTo(g, p, v) && LastImpacted(impacted, p[..|p| - 1]) == s;
      var q :| RootPathTo(g, q, v) && LastImpacted(impacted, q[..|q| - 1]) == s';
      OneRootPath(g, p, q, v);
    }
    OneSourceKeepsOrder(g, impacted, ts);
  }

  // A project with two impacted dependencies: some walk lets it start before one of them.
  lemma TwoDependenciesLoseOrder()
    ensures var g := Digraph({"a", "b", "c"}, {("a", "c"), ("b", "c")});
            IsDag(g) && exists ts :: WalksAll(g, ts) && !KeepsOrder(g, g.vertices, Contraction(g, g.vertices, ts))
  {
    var g := Digraph({"a", "b", "c"}, {("a", "c"), ("b", "c")});
    forall e | e in g.edges ensures !Reaches(g.edges, e.1, e.0) {
      if Reaches(g.edges, e.1, e.0) {
        var w := ReachesFirstEdge(g.edges, e.1, e.0);
        assert false;
      }
    }
    assert Quiet(g.edges, g.vertices, ["a", "c"]);
    assert Quiet(g.edges, g.vertices, ["b", "c"]);
    SourceIsNearestAncestor(g, g.vertices, "a", "c");
    SourceIsNearestAncestor(g, g.vertices, "b", "c");
    OrderSurvivesIff(g, g.vertices);
  }
}
