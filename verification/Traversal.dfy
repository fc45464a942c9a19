/**
 The breadth-first traversal that creates the jobs. A dummy vertex above all roots makes the roots
 come first, so a project is met after the project it waits for.
 */
module Traversal {
  import opened Wrappers
  import opened Graphs
  import opened JobCreation

  const DUMMY_PARENT: Name := "DUMMY_PARENT_PROJECT_FOR_PROCESSING"

  ghost function WithDummy(g: Digraph, roots: set<Name>): Digraph {
    Digraph(g.vertices + {DUMMY_PARENT}, g.edges + set r | r in roots :: (DUMMY_PARENT, r))
  }

  lemma NothingEntersDummy(g: Digraph, roots: set<Name>, v: Name)
    requires IsDag(g) && DUMMY_PARENT !in g.vertices && v in g.vertices && roots <= g.vertices
    ensures !Reaches(WithDummy(g, roots).edges, v, DUMMY_PARENT)
  {
    if Reaches(WithDummy(g, roots).edges, v, DUMMY_PARENT) {
      var w := ReachesLastEdge(WithDummy(g, roots).edges, v, DUMMY_PARENT);
    }
  }

  lemma DummySuccessors(g: Digraph, v: Name)
    requires IsDag(g) && DUMMY_PARENT !in g.vertices
    ensures Successors(WithDummy(g, Roots(g)).edges, v) ==
            if v == DUMMY_PARENT then Roots(g) else Successors(g.edges, v)
  {
    var h := WithDummy(g, Roots(g));
    forall w
      ensures w in Successors(h.edges, v) <==> w in if v == DUMMY_PARENT then Roots(g) else Successors(g.edges, v)
    {
      assert w in Successors(h.edges, v) <==> (v, w) in h.edges;
      assert w in Successors(g.edges, v) <==> (v, w) in g.edges;
    }
  }

  // The queue and everything taken from it before, as one list.
  ghost predicate Frontier(g: Digraph, all: seq<Name>, taken: nat) {
    && 0 < |all| && taken <= |all| && all[0] == DUMMY_PARENT
    && NoRepeats(all)
    && (forall i :: 0 < i < |all| ==> all[i] in g.vertices)
    && (forall i, j :: 0 < i < j < |all| && all[j] in Roots(g) ==> all[i] in Roots(g))
    && (forall i {:trigger ParentTaken(g, all, taken, i)} ::
         0 < i < |all| && all[i] !in Roots(g) ==> ParentTaken(g, all, taken, i))
    && (taken == 0 ==> |all| == 1)
  }

  ghost predicate ParentTaken(g: Digraph, all: seq<Name>, taken: nat, i: nat)
    requires taken <= |all| && i < |all|
  {
    exists k :: 0 < k < i && k < taken && all[k] in Predecessors(g.edges, all[i])
  }

  // Whatever a taken vertex leads to is in the list.
  ghost predicate Explored(g: Digraph, all: seq<Name>, taken: nat)
    requires 0 < |all| && taken <= |all|
  {
    && (taken > 0 ==> forall r :: r in Roots(g) ==> r in all)
    && (forall k, w :: 0 < k < taken && w in Successors(g.edges, all[k]) ==> w in all)
  }

  lemma FrontierGrows(g: Digraph, all: seq<Name>, taken: nat, w: Name)
    requires Frontier(g, all, taken) && taken > 0 && w !in all && w in g.vertices
    requires if taken == 1 then w in Roots(g) && forall i :: 0 < i < |all| ==> all[i] in Roots(g)
             else w !in Roots(g) && all[taken - 1] in Predecessors(g.edges, w)
    ensures Frontier(g, all + [w], taken)
    ensures taken == 1 ==> forall i :: 0 < i < |all + [w]| ==> (all + [w])[i] in Roots(g)
  {
    var more := all + [w];
    forall i | 0 < i < |more| && more[i] !in Roots(g)
      ensures ParentTaken(g, more, taken, i)
    {
      if i < |all| {
        assert ParentTaken(g, all, taken, i);
        var k :| 0 < k < i && k < taken && all[k] in Predecessors(g.edges, all[i]);
        assert more[k] == all[k];
      } else {
        assert more[taken - 1] == all[taken - 1];
      }
    }
  }

  lemma {:induction false} ExploredHoldsAll(g: Digraph, all: seq<Name>, v: Name)
    requires IsDag(g) && DUMMY_PARENT !in g.vertices && v in g.vertices
    requires Frontier(g, all, |all|) && Explored(g, all, |all|)
    ensures v in all[1..]
    decreases Above(g, v)
  {
    if v in Roots(g) {
      assert v in all;
    } else {
      var u :| u in Predecessors(g.edges, v);
      assert (u, v) in g.edges;
      AboveShrinks(g, u, v);
      ExploredHoldsAll(g, all, u);
      var k :| 0 <= k < |all| - 1 && all[1..][k] == u;
      assert all[k + 1] == u && v in Successors(g.edges, u);
      assert v in all;
    }
    var i :| 0 <= i < |all| && all[i] == v;
    assert all[1..][i - 1] == v;
  }

  // The vertices visited once so many are taken: the dummy is not among them.
  ghost function Taken(all: seq<Name>, taken: nat): seq<Name>
    requires taken <= |all|
  {
    if taken == 0 then [] else all[1..taken]
  }

  lemma TakenNext(all: seq<Name>, taken: nat)
    requires taken < |all|
    ensures Taken(all, taken + 1) == if taken == 0 then [] else Taken(all, taken) + [all[taken]]
  {}

  lemma TakenKept(all: seq<Name>, more: seq<Name>, taken: nat)
    requires taken <= |all| && all <= more
    ensures Taken(more, taken) == Taken(all, taken)
  {
    assert all == more[..|all|];
  }

  lemma TakenIsOrderly(g: Digraph, all: seq<Name>, taken: nat)
    requires Frontier(g, all, taken) && taken > 0
    ensures Orderly(g, all[1..taken])
  {
    var order := all[1..taken];
    forall i | 0 <= i < |order| && order[i] !in Roots(g)
      ensures ParentBefore(g, order, i)
    {
      assert ParentTaken(g, all, taken, i + 1);
      var k :| 0 < k < i + 1 && k < taken && all[k] in Predecessors(g.edges, all[i + 1]);
      assert order[k - 1] == all[k];
    }
  }

  lemma WholeTraversal(g: Digraph, all: seq<Name>)
    requires IsDag(g) && DUMMY_PARENT !in g.vertices && Frontier(g, all, |all|) && Explored(g, all, |all|)
    ensures ParentsFirst(g, all[1..|all|])
  {
    TakenIsOrderly(g, all, |all|);
    assert all[1..|all|] == all[1..];
    forall v | v in g.vertices ensures v in all[1..] {
      ExploredHoldsAll(g, all, v);
    }
  }

  /** Adds the dummy vertex and an edge from it to every root. */
  method AddDummyParent(g: ProjectGraph) returns (err: Option<GraphError>)
    requires g.Valid()
    modifies g
    ensures g.Valid()
    ensures err == if DUMMY_PARENT in old(g.vertices) then Some(VertexAlreadyExists) else None
    ensures err == None ==> g.Model() == WithDummy(old(g.Model()), Roots(old(g.Model())))
  {
    var before := g.Model();
    var roots := Roots(before);
    err := g.AddVertex(DUMMY_PARENT);
    if err.Some? {
      return;
    }
    var remaining := roots;
    assert g.edges == WithDummy(before, roots - remaining).edges;
    while remaining != {}
      invariant g.Valid() && remaining <= roots && err == None
      invariant g.Model() == WithDummy(before, roots - remaining)
      decreases remaining
    {
      var node :| node in remaining;
      NothingEntersDummy(before, roots - remaining, node);
      err := g.AddEdge(DUMMY_PARENT, node);
      remaining := remaining - {node};
      assert g.edges == WithDummy(before, roots - remaining).edges;
    }
    assert roots - remaining == roots;
  }

  /** Visits every vertex, the dummy excepted, through the job callback; a panic there ends the traversal. */
  method TraverseGraphVisitAllParentsFirst(g: ProjectGraph, b: JobBuilder)
    returns (err: Option<GraphError>, ghost visits: seq<Visited>)
    requires g.Valid() && g.Model() == b.plan.graph && !b.panicked
    modifies g, b
    ensures err == if DUMMY_PARENT in b.plan.graph.vertices then Some(VertexAlreadyExists) else None
    ensures VisitsRecorded(b.plan, old(b.State()), b.State(), visits)
    ensures Orderly(b.plan.graph, ProjectsOf(visits))
    ensures if err.Some? then visits == [] else b.panicked || ParentsFirst(b.plan.graph, ProjectsOf(visits))
  {
    visits := [];
    err := AddDummyParent(g);
    if err.Some? {
      return;
    }
    visits := BreadthFirst(g.edges, b);
  }

  /** The library's search from the dummy vertex: a queue, and a visited set marked on enqueue. */
  method BreadthFirst(edges: set<(Name, Name)>, b: JobBuilder) returns (ghost visits: seq<Visited>)
    requires IsDag(b.plan.graph) && DUMMY_PARENT !in b.plan.graph.vertices && !b.panicked
    requires edges == WithDummy(b.plan.graph, Roots(b.plan.graph)).edges
    modifies b
    ensures VisitsRecorded(b.plan, old(b.State()), b.State(), visits)
    ensures Orderly(b.plan.graph, ProjectsOf(visits))
    ensures b.panicked || ParentsFirst(b.plan.graph, ProjectsOf(visits))
  {
    visits := [];
    var queue, visited := [DUMMY_PARENT], {DUMMY_PARENT};
    ghost var all, taken := [DUMMY_PARENT], 0;
    ghost var start := b.State();
    while queue != []
      invariant Searching(b.plan.graph, all, taken, queue, visited) && !b.panicked
      invariant VisitsRecorded(b.plan, start, b.State(), visits) && ProjectsOf(visits) == Taken(all, taken)
      decreases |b.plan.graph.vertices| + 1 - taken
    {
      var current := queue[0];
      StillSearching(b.plan.graph, all, taken, queue, visited);
      visits := VisitUnlessDummy(b, current, start, visits);
      taken := taken + 1;
      if b.panicked {
        TakenIsOrderly(b.plan.graph, all, taken);
        return;
      }
      queue, visited, all := EnqueueAdjacent(b.plan.graph, edges, current, queue[1..], visited, all, taken);
    }
    WholeTraversal(b.plan.graph, all);
    TakenIsOrderly(b.plan.graph, all, |all|);
  }

  ghost predicate Searching(g: Digraph, all: seq<Name>, taken: nat, queue: seq<Name>, visited: set<Name>) {
    && Frontier(g, all, taken) && Explored(g, all, taken)
    && queue == all[taken..]
    && forall v :: v in visited <==> v in all
  }

  ghost predicate VisitsRecorded(plan: Plan, start: Building, s: Building, visits: seq<Visited>) {
    && s == AfterVisits(start, plan, visits)
    && forall i :: 0 <= i < |visits| ==> Lists(plan.graph, visits[i])
  }

  lemma StillSearching(g: Digraph, all: seq<Name>, taken: nat, queue: seq<Name>, visited: set<Name>)
    requires Searching(g, all, taken, queue, visited) && queue != []
    ensures taken < |g.vertices| + 1 && taken < |all| && queue[0] == all[taken] && queue[1..] == all[taken + 1..]
    ensures Frontier(g, all, taken + 1) && Explored(g, all, taken) && forall v :: v in visited <==> v in all
    ensures taken == 0 ==> |all| == 1
    ensures Taken(all, taken + 1) == Taken(all, taken) + if queue[0] == DUMMY_PARENT then [] else [queue[0]]
  {
    TakenAreVertices(g, all, taken);
    FrontierTaken(g, all, taken);
    TakenNext(all, taken);
  }

  method VisitUnlessDummy(b: JobBuilder, current: Name, ghost start: Building, ghost visits: seq<Visited>)
    returns (ghost longer: seq<Visited>)
    requires !b.panicked && VisitsRecorded(b.plan, start, b.State(), visits)
    modifies b
    ensures VisitsRecorded(b.plan, start, b.State(), longer)
    ensures ProjectsOf(longer) == if current == DUMMY_PARENT then ProjectsOf(visits) else ProjectsOf(visits) + [current]
  {
    longer := visits;
    if current != DUMMY_PARENT {
      ghost var x;
      var stop;
      stop, x := b.Visit(current);
      longer := visits + [x];
      assert longer[..|visits|] == visits;
    }
  }

  /** Queues the unvisited neighbours of the vertex just taken, in the arbitrary order of a map. */
  method EnqueueAdjacent(ghost g: Digraph, edges: set<(Name, Name)>, current: Name, queue0: seq<Name>,
                         visited0: set<Name>, ghost all0: seq<Name>, ghost taken: nat)
    returns (queue: seq<Name>, visited: set<Name>, ghost all: seq<Name>)
    requires IsDag(g) && DUMMY_PARENT !in g.vertices && edges == WithDummy(g, Roots(g)).edges
    requires taken > 0 && Frontier(g, all0, taken) && Explored(g, all0, taken - 1)
    requires current == all0[taken - 1] && (taken == 1 ==> |all0| == 1)
    requires queue0 == all0[taken..] && forall v :: v in visited0 <==> v in all0
    ensures Searching(g, all, taken, queue, visited)
    ensures Taken(all, taken) == Taken(all0, taken)
  {
    queue, visited, all := queue0, visited0, all0;
    DummySuccessors(g, current);
    var remaining := Successors(edges, current);
    while remaining != {}
      invariant Frontier(g, all, taken) && queue == all[taken..] && all0 <= all
      invariant taken == 1 ==> forall i :: 0 < i < |all| ==> all[i] in Roots(g)
      invariant forall v :: v in visited <==> v in all
      invariant remaining <= Successors(edges, current)
      invariant forall w :: w in Successors(edges, current) && w !in remaining ==> w in all
      decreases remaining
    {
      var adjacency :| adjacency in remaining;
      if adjacency !in visited {
        SuccessorIsInside(g, current, adjacency);
        FrontierGrows(g, all, taken, adjacency);
        visited := visited + {adjacency};
        queue := queue + [adjacency];
        all := all + [adjacency];
      }
      remaining := remaining - {adjacency};
    }
    ExploredGrows(g, all0, all, taken);
    TakenKept(all0, all, taken);
  }

  lemma TakenAreVertices(g: Digraph, all: seq<Name>, taken: nat)
    requires Frontier(g, all, taken) && taken < |all|
    ensures taken < |g.vertices| + 1
    ensures all[taken] == DUMMY_PARENT <==> taken == 0
  {
    RepeatsBound(all[1..], g.vertices);
  }

  lemma {:induction false} RepeatsBound(s: seq<Name>, bound: set<Name>)
    requires NoRepeats(s) && forall v :: v in s ==> v in bound
    ensures |s| <= |bound|
    decreases |s|
  {
    if s != [] {
      forall v | v in s[1..] ensures v in bound - {s[0]} {
        var i :| 0 <= i < |s[1..]| && s[1..][i] == v;
        assert s[0] != s[i + 1];
      }
      RepeatsBound(s[1..], bound - {s[0]});
    }
  }

  lemma FrontierTaken(g: Digraph, all: seq<Name>, taken: nat)
    requires Frontier(g, all, taken) && taken < |all|
    ensures Frontier(g, all, taken + 1)
  {
    forall i | 0 < i < |all| && all[i] !in Roots(g)
      ensures ParentTaken(g, all, taken + 1, i)
    {
      assert ParentTaken(g, all, taken, i);
      var k :| 0 < k < i && k < taken && all[k] in Predecessors(g.edges, all[i]);
    }
  }

  lemma SuccessorIsInside(g: Digraph, v: Name, w: Name)
    requires IsDag(g) && DUMMY_PARENT !in g.vertices && w in Successors(WithDummy(g, Roots(g)).edges, v)
    ensures w in g.vertices
    ensures if v == DUMMY_PARENT then w in Roots(g) else w !in Roots(g) && v in Predecessors(g.edges, w)
  {
    DummySuccessors(g, v);
    if v != DUMMY_PARENT {
      assert (v, w) in g.edges;
      assert v in Predecessors(g.edges, w);
    }
  }

  lemma ExploredGrows(g: Digraph, known: seq<Name>, all: seq<Name>, taken: nat)
    requires 0 < taken <= |known| && known <= all && Explored(g, known, taken - 1)
    requires if taken == 1 then forall r :: r in Roots(g) ==> r in all
             else forall w :: w in Successors(g.edges, all[taken - 1]) ==> w in all
    ensures Explored(g, all, taken)
  {
    forall v | v in known ensures v in all {}
  }
}
