/**
 One job row per impacted project: the callback that the traversal calls, and what a whole traversal
 leaves in the tables.
 */
module JobCreation {
  import opened Wrappers
  import opened Graphs
  import opened Tables

  // specs: the projects that have a job specification; creating a job without one fails.
  datatype Plan = Plan(graph: Digraph, specs: set<Name>, batch: nat)

  // result: the job of each project visited so far; panicked: a parent without a job was dereferenced.
  datatype Building = Building(jobs: seq<JobRow>, links: seq<LinkRow>, result: map<Name, nat>, panicked: bool)

  // A project and its predecessors in the order the callback's loop met them.
  datatype Visited = Visited(project: Name, parents: seq<Name>)

  ghost predicate Lists(g: Digraph, x: Visited) {
    NoRepeats(x.parents) && forall p :: p in x.parents <==> p in Predecessors(g.edges, x.project)
  }

  function JobAdded(s: Building, batch: nat, v: Name): Building {
    s.(jobs := s.jobs + [JobRow(batch, v, Created)])
  }

  function AfterParents(s: Building, plan: Plan, v: Name, parents: seq<Name>): Building
    decreases parents
  {
    if parents == [] || v !in plan.specs then s
    else if parents[0] !in s.result then JobAdded(s, plan.batch, v).(panicked := true)
    else
      var id := |s.jobs|;
      var t := JobAdded(s, plan.batch, v).(links := s.links + [LinkRow(s.result[parents[0]], id)],
                                           result := s.result[v := id]);
      AfterParents(t, plan, v, parents[1..])
  }

  function AfterVisit(s: Building, plan: Plan, x: Visited): Building {
    if s.panicked then s
    else if x.parents != [] then AfterParents(s, plan, x.project, x.parents)
    else if x.project !in plan.specs then s
    else JobAdded(s, plan.batch, x.project).(result := s.result[x.project := |s.jobs|])
  }

  function AfterVisits(s: Building, plan: Plan, xs: seq<Visited>): Building {
    if xs == [] then s else AfterVisit(AfterVisits(s, plan, xs[..|xs| - 1]), plan, xs[|xs| - 1])
  }

  function ProjectsOf(xs: seq<Visited>): (s: seq<Name>)
    ensures |s| == |xs| && forall i :: 0 <= i < |s| ==> s[i] == xs[i].project
  {
    seq(|xs|, i requires 0 <= i < |xs| => xs[i].project)
  }

  // No vertex twice, roots first, and each other vertex after one of its predecessors.
  ghost predicate Orderly(g: Digraph, order: seq<Name>) {
    && NoRepeats(order)
    && (forall v :: v in order ==> v in g.vertices)
    && (forall i, j :: 0 <= i < j < |order| && order[j] in Roots(g) ==> order[i] in Roots(g))
    && (forall i {:trigger ParentBefore(g, order, i)} ::
         0 <= i < |order| && order[i] !in Roots(g) ==> ParentBefore(g, order, i))
  }

  ghost predicate ParentBefore(g: Digraph, order: seq<Name>, i: nat)
    requires i < |order|
  {
    exists k :: 0 <= k < i && order[k] in Predecessors(g.edges, order[i])
  }

  ghost predicate ParentsFirst(g: Digraph, order: seq<Name>) {
    Orderly(g, order) && forall v :: v in g.vertices ==> v in order
  }

  /** The state the callback fills. */
  class JobBuilder {
    const plan: Plan
    var jobs: seq<JobRow>
    var links: seq<LinkRow>
    var result: map<Name, nat>
    var panicked: bool

    constructor (plan: Plan, jobs: seq<JobRow>, links: seq<LinkRow>)
      ensures this.plan == plan && State() == Building(jobs, links, map[], false)
    {
      this.plan := plan;
      this.jobs, this.links, result, panicked := jobs, links, map[], false;
    }

    function State(): Building
      reads this
    {
      Building(jobs, links, result, panicked)
    }

    // Fails, leaving no row, when the project has no job specification.
    method CreateDiggerJob(v: Name) returns (id: Option<nat>)
      modifies this
      ensures id == if v in plan.specs then Some(|old(jobs)|) else None
      ensures State() == if v in plan.specs then JobAdded(old(State()), plan.batch, v) else old(State())
    {
      if v !in plan.specs {
        return None;
      }
      id := Some(|jobs|);
      jobs := jobs + [JobRow(plan.batch, v, Created)];
    }

    method CreateDiggerJobParentLink(parent: nat, child: nat)
      modifies this
      ensures State() == old(State()).(links := old(links) + [LinkRow(parent, child)])
    {
      links := links + [LinkRow(parent, child)];
    }

    // One turn of the callback's loop; it ends the loop unless it links a job.
    method AddJobBelow(value: Name, parent: Name) returns (linked: bool)
      requires !panicked
      modifies this
      ensures State() == AfterParents(old(State()), plan, value, [parent])
      ensures linked <==> value in plan.specs && parent in old(result)
      ensures linked ==> !panicked
    {
      var id := CreateDiggerJob(value);
      if id == None {
        return false;
      }
      if parent !in result {
        panicked := true;
        return false;
      }
      CreateDiggerJobParentLink(result[parent], id.value);
      result := result[value := id.value];
      assert [parent][1..] == [];
      return true;
    }

    /** The callback: a root gets one job; any other project gets a job and a link per predecessor. */
    method Visit(value: Name) returns (stop: bool, ghost x: Visited)
      requires !panicked
      modifies this
      ensures !stop && x.project == value && Lists(plan.graph, x)
      ensures State() == AfterVisit(old(State()), plan, x)
    {
      stop := false;
      var remaining := Predecessors(plan.graph.edges, value);
      if remaining == {} {
        x := Visited(value, []);
        var id := CreateDiggerJob(value);
        if id == None {
          return;
        }
        result := result[value := id.value];
        return;
      }
      ghost var parents := [];
      while remaining != {}
        invariant remaining <= Predecessors(plan.graph.edges, value) && NoRepeats(parents) && !panicked
        invariant forall p :: p in parents <==> p in Predecessors(plan.graph.edges, value) && p !in remaining
        invariant if parents == [] then remaining == Predecessors(plan.graph.edges, value) else value in plan.specs
        invariant State() == AfterParents(old(State()), plan, value, parents)
        decreases remaining
      {
        var parent :| parent in remaining;
        remaining := remaining - {parent};
        ghost var rest := Enumerated(remaining);
        AfterParentsNext(old(State()), plan, value, parents, parent, rest);
        NoRepeatsJoin(parents, parent, rest);
        NoRepeatsJoin(parents, parent, []);
        var linked := AddJobBelow(value, parent);
        if !linked {
          x := Visited(value, parents + [parent] + rest);
          return;
        }
        assert parents + [parent] + [] == parents + [parent];
        parents := parents + [parent];
      }
      x := Visited(value, parents);
    }
  }

  // One more parent; a turn that links no job is the last.
  lemma AfterParentsNext(s: Building, plan: Plan, v: Name, ps: seq<Name>, p: Name, rest: seq<Name>)
    requires !s.panicked && !AfterParents(s, plan, v, ps).panicked
    requires ps == [] || v in plan.specs
    ensures var t := AfterParents(s, plan, v, ps);
            && AfterParents(s, plan, v, ps + [p]) == AfterParents(t, plan, v, [p])
            && (v !in plan.specs || p !in t.result ==>
                 AfterParents(s, plan, v, ps + [p] + rest) == AfterParents(t, plan, v, [p]))
  {
    var t := AfterParents(s, plan, v, ps);
    AfterParentsAppend(s, plan, v, ps, [p]);
    AfterParentsAppend(s, plan, v, ps, [p] + rest);
    assert ps + ([p] + rest) == ps + [p] + rest;
    assert ([p] + rest)[0] == p;
  }

  ghost function Enumerated(s: set<Name>): (r: seq<Name>)
    ensures NoRepeats(r) && forall v :: v in r <==> v in s
  {
    if s == {} then [] else var v :| v in s; [v] + Enumerated(s - {v})
  }

  lemma {:induction false} AfterParentsAppend(s: Building, plan: Plan, v: Name, ps: seq<Name>, qs: seq<Name>)
    requires !s.panicked && !AfterParents(s, plan, v, ps).panicked
    ensures AfterParents(s, plan, v, ps + qs) == AfterParents(AfterParents(s, plan, v, ps), plan, v, qs)
    decreases ps
  {
    if ps == [] {
      assert ps + qs == qs;
    } else if v in plan.specs && ps[0] in s.result {
      var id := |s.jobs|;
      var t := JobAdded(s, plan.batch, v).(links := s.links + [LinkRow(s.result[ps[0]], id)],
                                           result := s.result[v := id]);
      assert (ps + qs)[1..] == ps[1..] + qs;
      AfterParentsAppend(t, plan, v, ps[1..], qs);
    }
  }

  lemma NoRepeatsJoin(s: seq<Name>, v: Name, t: seq<Name>)
    requires NoRepeats(s) && NoRepeats(t) && v !in s && v !in t
    requires forall w :: w in s ==> w !in t
    ensures NoRepeats(s + [v] + t)
  {
    var all := s + [v] + t;
    forall i, j | 0 <= i < j < |all| ensures all[i] != all[j] {
      assert i < |s| ==> all[i] == s[i] && s[i] in s;
      assert j > |s| ==> all[j] == t[j - |s| - 1] && all[j] in t;
      assert j < |s| ==> all[j] == s[j];
      assert i > |s| ==> all[i] == t[i - |s| - 1];
    }
  }

  // What a whole traversal leaves

  // Every acyclic graph can be visited parents first.

  lemma {:induction false} Completed(g: Digraph, order: seq<Name>) returns (full: seq<Name>)
    requires IsDag(g) && Orderly(g, order) && forall r :: r in Roots(g) ==> r in order
    ensures ParentsFirst(g, full)
    decreases g.vertices - Members(order)
  {
    if v :| v in g.vertices && v !in order {
      var w := NextToVisit(g, order, v);
      var longer := order + [w];
      forall i | 0 <= i < |longer| && longer[i] !in Roots(g) ensures ParentBefore(g, longer, i) {
        if i < |order| {
          assert ParentBefore(g, order, i);
          var k :| 0 <= k < i && order[k] in Predecessors(g.edges, order[i]);
          assert longer[k] in Predecessors(g.edges, longer[i]);
        } else {
          var k :| 0 <= k < |order| && order[k] in Predecessors(g.edges, w);
          assert longer[k] in Predecessors(g.edges, longer[i]);
        }
      }
      assert w in g.vertices - Members(order) && w in Members(longer) && Members(order) <= Members(longer);
      full := Completed(g, longer);
    } else {
      full := order;
    }
  }

  ghost function Members(s: seq<Name>): set<Name> {
    set v | v in s
  }

  // A vertex not met yet, one of whose predecessors is.
  lemma NextToVisit(g: Digraph, order: seq<Name>, v: Name) returns (w: Name)
    requires IsDag(g) && v in g.vertices && v !in order && forall r :: r in Roots(g) ==> r in order
    ensures w in g.vertices && w !in order
    ensures exists k :: 0 <= k < |order| && order[k] in Predecessors(g.edges, w)
  {
    var p := RootPath(g, v);
    var i := 0;
    while p[i + 1] in order
      invariant 0 <= i < |p| - 1 && p[i] in order
      decreases |p| - i
    {
      i := i + 1;
    }
    w := p[i + 1];
    assert (p[i], w) in g.edges;
    var k :| 0 <= k < |order| && order[k] == p[i];
    assert order[k] in Predecessors(g.edges, w);
  }

  lemma VisitsExist(g: Digraph) returns (xs: seq<Visited>)
    requires IsDag(g)
    ensures ParentsFirst(g, ProjectsOf(xs)) && forall i :: 0 <= i < |xs| ==> Lists(g, xs[i])
  {
    var order := Completed(g, Enumerated(Roots(g)));
    xs := seq(|order|, i requires 0 <= i < |order| => Visited(order[i], Enumerated(Predecessors(g.edges, order[i]))));
    assert ProjectsOf(xs) == order;
  }

  // The new rows: one job per visited project with a specification, and one link per edge between such projects.
  ghost predicate JobsMatch(plan: Plan, base: Building, s: Building, done: set<Name>) {
    && base.jobs <= s.jobs && base.links <= s.links
    && (forall v :: v in s.result <==> v in done && v in plan.specs)
    && (forall v :: v in s.result ==>
         |base.jobs| <= s.result[v] < |s.jobs| && s.jobs[s.result[v]] == JobRow(plan.batch, v, Created))
    && (forall i :: |base.jobs| <= i < |s.jobs| ==> s.jobs[i].project in s.result && s.result[s.jobs[i].project] == i)
  }

  ghost predicate LinksMatch(plan: Plan, base: Building, s: Building) {
    && |base.links| <= |s.links|
    && (forall k :: |base.links| <= k < |s.links| ==> IsLinkOf(plan, s, s.links[k]))
    && (forall k, m :: |base.links| <= k < m < |s.links| ==> s.links[k].child != s.links[m].child)
    && (forall e :: e in plan.graph.edges && e.1 in s.result ==>
          e.0 in s.result && LinkRow(s.result[e.0], s.result[e.1]) in s.links[|base.links|..])
  }

  ghost predicate IsLinkOf(plan: Plan, s: Building, l: LinkRow) {
    exists e :: e in plan.graph.edges && e.0 in s.result && e.1 in s.result &&
      l == LinkRow(s.result[e.0], s.result[e.1]) && l.parent < l.child
  }

  ghost function Done(xs: seq<Visited>): set<Name> {
    set x | x in xs :: x.project
  }

  // No project is visited twice, nor before a parent.
  ghost predicate AfterItsParents(g: Digraph, xs: seq<Visited>) {
    && (forall i :: 0 <= i < |xs| ==> Lists(g, xs[i]))
    && (forall i, j :: 0 <= i < j < |xs| ==> xs[i].project != xs[j].project)
    && (forall i, p :: 0 <= i < |xs| && p in xs[i].parents ==> exists k :: 0 <= k < i && xs[k].project == p)
  }

  // A project has a specification although the project it waits for has none.
  ghost predicate Dangles(plan: Plan, v: Name) {
    v in plan.specs && exists p :: p in Predecessors(plan.graph.edges, v) && p !in plan.specs
  }

  lemma OneParentListed(g: Digraph, x: Visited)
    requires OneParentEach(g) && Lists(g, x)
    ensures |x.parents| <= 1
  {
    assert |x.parents| > 1 ==> x.parents[0] != x.parents[1] && x.parents[0] in x.parents && x.parents[1] in x.parents;
    forall p, q | p in x.parents && q in x.parents ensures p == q {
      assert (p, x.project) in g.edges && (q, x.project) in g.edges;
    }
  }

  // The per-parent loop creates one job per parent, of which only the last is recorded; so with several
  // parents it would leave several jobs of one project, each linked to one of them.
  lemma {:induction false} OneJobPerParent(s: Building, plan: Plan, v: Name, parents: seq<Name>)
    requires v in plan.specs && v !in parents && forall p :: p in parents ==> p in s.result
    ensures var t, n := AfterParents(s, plan, v, parents), |s.jobs|;
            && t.panicked == s.panicked
            && t.jobs == s.jobs + seq(|parents|, k => JobRow(plan.batch, v, Created))
            && |t.links| == |s.links| + |parents| && s.links <= t.links
            && (forall k :: 0 <= k < |parents| ==> t.links[|s.links| + k] == LinkRow(s.result[parents[k]], n + k))
            && t.result == if parents == [] then s.result else s.result[v := n + |parents| - 1]
    decreases parents
  {
    if parents != [] {
      var id, rest := |s.jobs|, parents[1..];
      var t := JobAdded(s, plan.batch, v).(links := s.links + [LinkRow(s.result[parents[0]], id)],
                                           result := s.result[v := id]);
      assert parents == [parents[0]] + rest;
      OneJobPerParent(t, plan, v, rest);
      var u := AfterParents(t, plan, v, rest);
      assert u.jobs == s.jobs + seq(|parents|, k => JobRow(plan.batch, v, Created));
      assert u.links[|s.links|] == t.links[|s.links|];
      forall k | 0 < k < |parents| ensures u.links[|s.links| + k] == LinkRow(s.result[parents[k]], id + k) {
        assert parents[k] == rest[k - 1] && rest[k - 1] in parents;
        assert u.links[|t.links| + (k - 1)] == LinkRow(t.result[rest[k - 1]], |t.jobs| + (k - 1));
      }
    }
  }

  lemma AfterOneParent(s: Building, plan: Plan, v: Name, p: Name)
    ensures AfterParents(s, plan, v, [p]) ==
            if v !in plan.specs then s
            else if p !in s.result then JobAdded(s, plan.batch, v).(panicked := true)
            else JobAdded(s, plan.batch, v).(links := s.links + [LinkRow(s.result[p], |s.jobs|)],
                                                   result := s.result[v := |s.jobs|])
  {
    assert [p][1..] == [];
  }

  // One more visit, when all parents were visited before.
  lemma VisitKeepsMatch(plan: Plan, base: Building, s: Building, x: Visited, done: set<Name>)
    requires OneParentEach(plan.graph) && Lists(plan.graph, x) && !s.panicked
    requires JobsMatch(plan, base, s, done) && LinksMatch(plan, base, s)
    requires x.project !in done && forall p :: p in x.parents ==> p in done
    requires forall e :: e in plan.graph.edges && e.1 in done ==> e.0 in done
    ensures var t := AfterVisit(s, plan, x);
            && (t.panicked <==> Dangles(plan, x.project))
            && (!t.panicked ==> JobsMatch(plan, base, t, done + {x.project}) && LinksMatch(plan, base, t))
  {
    var v, t := x.project, AfterVisit(s, plan, x);
    OneParentListed(plan.graph, x);
    if x.parents != [] {
      assert x.parents == [x.parents[0]];
      assert x.parents[0] in x.parents;
      AfterOneParent(s, plan, v, x.parents[0]);
    }
    forall p ensures p in Predecessors(plan.graph.edges, v) <==> p in x.parents {}
    if v in plan.specs && !t.panicked {
      var id := |s.jobs|;
      assert t.result == s.result[v := id];
      if x.parents != [] {
        var p := x.parents[0];
        assert t.links == s.links + [LinkRow(s.result[p], id)];
        assert (p, v) in plan.graph.edges;
      } else {
        assert t.links == s.links;
      }
      LinksGrow(plan, base, s, x, t, done);
    }
  }

  lemma LinksGrow(plan: Plan, base: Building, s: Building, x: Visited, t: Building, done: set<Name>)
    requires OneParentEach(plan.graph) && Lists(plan.graph, x) && JobsMatch(plan, base, s, done) &&
      LinksMatch(plan, base, s)
    requires x.project !in done && x.project in plan.specs && (x.parents != [] ==> x.parents[0] in s.result)
    requires forall e :: e in plan.graph.edges && e.1 in done ==> e.0 in done
    requires |x.parents| <= 1 && t.result == s.result[x.project := |s.jobs|]
    requires t.links == if x.parents == [] then s.links else s.links + [LinkRow(s.result[x.parents[0]], |s.jobs|)]
    ensures LinksMatch(plan, base, t)
  {
    var v, n := x.project, |base.links|;
    assert x.parents != [] ==> x.parents[0] in x.parents && (x.parents[0], v) in plan.graph.edges;
    forall k | n <= k < |t.links| ensures IsLinkOf(plan, t, t.links[k]) {
      if k < |s.links| {
        LinkStays(plan, s, v, t, s.links[k]);
      } else {
        NewLink(plan, s, v, x.parents[0], t);
      }
    }
    forall k, m | n <= k < m < |t.links| ensures t.links[k].child != t.links[m].child {
      assert IsLinkOf(plan, s, s.links[k]);
    }
    forall e | e in plan.graph.edges && e.1 in t.result
      ensures e.0 in t.result && LinkRow(t.result[e.0], t.result[e.1]) in t.links[n..]
    {
      if e.1 == v {
        assert e.0 in x.parents;
        assert e.0 == x.parents[0] && e.0 != v;
        InTail(s.links, [LinkRow(s.result[e.0], |s.jobs|)], n, LinkRow(s.result[e.0], |s.jobs|));
      } else {
        assert e.0 in done && e.0 != v;
        InTail(s.links, t.links[|s.links|..], n, LinkRow(s.result[e.0], s.result[e.1]));
        assert t.links == s.links + t.links[|s.links|..];
      }
    }
  }

  lemma InTail(links: seq<LinkRow>, more: seq<LinkRow>, n: nat, l: LinkRow)
    requires n <= |links| && (l in links[n..] || l in more)
    ensures l in (links + more)[n..]
  {
    assert (links + more)[n..] == links[n..] + more;
  }

  lemma LinkStays(plan: Plan, s: Building, v: Name, t: Building, l: LinkRow)
    requires IsLinkOf(plan, s, l) && v !in s.result && t.result == s.result[v := |s.jobs|]
    ensures IsLinkOf(plan, t, l)
  {
    var e :| e in plan.graph.edges && e.0 in s.result && e.1 in s.result &&
      l == LinkRow(s.result[e.0], s.result[e.1]) && l.parent < l.child;
    assert e.0 in t.result && e.1 in t.result;
  }

  lemma NewLink(plan: Plan, s: Building, v: Name, p: Name, t: Building)
    requires (p, v) in plan.graph.edges && p in s.result && v !in s.result
    requires s.result[p] < |s.jobs| && t.result == s.result[v := |s.jobs|]
    ensures IsLinkOf(plan, t, LinkRow(s.result[p], |s.jobs|))
  {
    var e := (p, v);
    assert e.0 in t.result && e.1 in t.result;
  }

  lemma InitAfterItsParents(g: Digraph, xs: seq<Visited>)
    requires xs != [] && AfterItsParents(g, xs)
    ensures var init, x := xs[..|xs| - 1], xs[|xs| - 1];
            && AfterItsParents(g, init)
            && Done(xs) == Done(init) + {x.project}
            && x.project !in Done(init)
            && (forall p :: p in x.parents ==> p in Done(init))
            && (forall e :: e in g.edges && e.1 in Done(init) ==> e.0 in Done(init))
  {
    var n := |xs| - 1;
    var init := xs[..n];
    assert forall x :: x in xs <==> x in init || x == xs[n];
    forall i, p | 0 <= i < n && p in init[i].parents ensures exists k :: 0 <= k < i && init[k].project == p {
      var k :| 0 <= k < i && xs[k].project == p;
      assert init[k].project == p;
    }
    forall p | p in xs[n].parents ensures p in Done(init) {
      var k :| 0 <= k < n && xs[k].project == p;
      assert init[k] in init;
    }
    forall e | e in g.edges && e.1 in Done(init) ensures e.0 in Done(init) {
      var x :| x in init && x.project == e.1;
      var i :| 0 <= i < n && init[i] == x;
      assert Lists(g, xs[i]) && e.0 in Predecessors(g.edges, x.project);
      var k :| 0 <= k < i && xs[k].project == e.0;
      assert init[k] in init;
    }
  }

  lemma {:induction false} VisitsMatch(plan: Plan, base: Building, xs: seq<Visited>)
    requires OneParentEach(plan.graph) && base.result == map[] && !base.panicked
    requires AfterItsParents(plan.graph, xs)
    ensures var t := AfterVisits(base, plan, xs);
            && (t.panicked <==> exists v :: v in Done(xs) && Dangles(plan, v))
            && (!t.panicked ==> JobsMatch(plan, base, t, Done(xs)) && LinksMatch(plan, base, t))
    decreases |xs|
  {
    if xs != [] {
      var init, x := xs[..|xs| - 1], xs[|xs| - 1];
      InitAfterItsParents(plan.graph, xs);
      VisitsMatch(plan, base, init);
      var s := AfterVisits(base, plan, init);
      if !s.panicked {
        assert Lists(plan.graph, x);
        VisitKeepsMatch(plan, base, s, x, Done(init));
      }
    }
  }

  lemma OrderlyVisits(g: Digraph, xs: seq<Visited>)
    requires IsDag(g) && OneParentEach(g) && Orderly(g, ProjectsOf(xs))
    requires forall i :: 0 <= i < |xs| ==> Lists(g, xs[i])
    ensures AfterItsParents(g, xs) && Done(xs) <= g.vertices
    ensures ParentsFirst(g, ProjectsOf(xs)) ==> Done(xs) == g.vertices
  {
    var order := ProjectsOf(xs);
    forall i, j | 0 <= i < j < |xs| ensures xs[i].project != xs[j].project {
      assert order[i] != order[j];
    }
    forall i, p | 0 <= i < |xs| && p in xs[i].parents ensures exists k :: 0 <= k < i && xs[k].project == p {
      assert p in Predecessors(g.edges, order[i]);
      assert ParentBefore(g, order, i);
      var k :| 0 <= k < i && order[k] in Predecessors(g.edges, order[i]);
      assert (p, order[i]) in g.edges && (order[k], order[i]) in g.edges;
      assert xs[k].project == p;
    }
    forall v ensures v in Done(xs) <==> v in order {
      if v in order {
        var i :| 0 <= i < |order| && order[i] == v;
        assert xs[i] in xs;
      }
      if v in Done(xs) {
        var i :| 0 <= i < |xs| && xs[i].project == v;
        assert order[i] in order;
      }
    }
  }

  // Over a graph with one parent each, walked parents first up to the end or to a panic: the conversion
  // dereferences a missing parent job exactly when some project with a specification waits for one without;
  // otherwise there is one job per project with a specification and one link per edge between such projects.
  lemma OneJobPerProject(plan: Plan, base: Building, xs: seq<Visited>)
    requires IsDag(plan.graph) && OneParentEach(plan.graph) && base.result == map[] && !base.panicked
    requires Orderly(plan.graph, ProjectsOf(xs)) && forall i :: 0 <= i < |xs| ==> Lists(plan.graph, xs[i])
    requires AfterVisits(base, plan, xs).panicked || ParentsFirst(plan.graph, ProjectsOf(xs))
    ensures var t := AfterVisits(base, plan, xs);
            && (t.panicked <==> exists v :: v in plan.graph.vertices && Dangles(plan, v))
            && (!t.panicked ==> JobsMatch(plan, base, t, plan.graph.vertices) && LinksMatch(plan, base, t))
  {
    OrderlyVisits(plan.graph, xs);
    VisitsMatch(plan, base, xs);
  }
}
