/** The project entries of a digger.yml that the modelled code reads. */
module Projects {
  datatype Project = Project(
    name: string,
    dependencies: seq<string>,
    dir: string,
    includePatterns: seq<string>,
    excludePatterns: seq<string>,
    terragrunt: bool)
}

/** Loading a configuration: the checks on project names and dependencies, then the dependency graph. */
module DependencyGraph {
  import opened Wrappers
  import opened Graphs
  import opened Projects

  datatype ConfigError = DuplicatedName | UnknownDependency | BadGraph(cause: GraphError)

  ghost predicate UniqueNames(ps: seq<Project>) {
    forall i, j :: 0 <= i < j < |ps| ==> ps[i].name != ps[j].name
  }

  function Names(ps: seq<Project>): set<Name> {
    set p | p in ps :: p.name
  }

  // An edge runs from the dependency to the project that depends on it.
  function DependencyEdges(ps: seq<Project>): set<(Name, Name)> {
    set p, d | p in ps && d in p.dependencies :: (d, p.name)
  }

  ghost predicate KnownDependencies(ps: seq<Project>) {
    forall p, d :: p in ps && d in p.dependencies ==> d in Names(ps)
  }

  ghost predicate NoRepeatedDependency(ps: seq<Project>) {
    forall p :: p in ps ==> NoRepeats(p.dependencies)
  }

  ghost predicate Loadable(ps: seq<Project>) {
    && UniqueNames(ps)
    && KnownDependencies(ps)
    && NoRepeatedDependency(ps)
    && Acyclic(DependencyEdges(ps))
  }

  // Names are unique exactly when there are as many of them as projects.
  lemma {:induction false} UniqueNamesCount(ps: seq<Project>)
    ensures |Names(ps)| <= |ps|
    ensures UniqueNames(ps) <==> |Names(ps)| == |ps|
  {
    if ps == [] {
      assert Names(ps) == {};
    } else {
      var n := |ps| - 1;
      UniqueNamesCount(ps[..n]);
      NamesOfLast(ps[..n], ps[n]);
      assert ps == ps[..n] + [ps[n]];
    }
  }

  lemma NamesOfLast(init: seq<Project>, last: Project)
    ensures Names(init + [last]) == Names(init) + {last.name}
    ensures UniqueNames(init + [last]) <==> UniqueNames(init) && last.name !in Names(init)
  {
    var ps, n := init + [last], |init|;
    forall p | p in ps ensures p in init || p == last {}
    forall i | 0 <= i < n ensures init[i].name in Names(init) {}
    if last.name in Names(init) {
      var p :| p in init && p.name == last.name;
      var i :| 0 <= i < n && init[i] == p;
      assert ps[i].name == ps[n].name;
    }
    if UniqueNames(ps) {
      forall i, j | 0 <= i < j < n ensures init[i].name != init[j].name {
        assert ps[i] == init[i] && ps[j] == init[j];
      }
    }
  }

  // Listing the same projects in another order changes neither the verdict nor the graph.
  lemma LoadableInAnyOrder(ps: seq<Project>, qs: seq<Project>)
    requires multiset(ps) == multiset(qs)
    ensures Loadable(ps) <==> Loadable(qs)
    ensures Names(ps) == Names(qs) && DependencyEdges(ps) == DependencyEdges(qs)
  {
    forall p ensures p in ps <==> p in qs {
      assert p in multiset(ps) <==> p in ps;
      assert p in multiset(qs) <==> p in qs;
    }
    assert Names(ps) == Names(qs);
    assert DependencyEdges(ps) == DependencyEdges(qs);
    assert |ps| == |multiset(ps)| == |multiset(qs)| == |qs|;
    UniqueNamesCount(ps);
    UniqueNamesCount(qs);
  }

  /** Rejects a project name that occurs twice. */
  method CheckNames(ps: seq<Project>) returns (duplicated: bool)
    ensures duplicated <==> !UniqueNames(ps)
  {
    var names := {};
    for i := 0 to |ps|
      invariant forall n :: n in names <==> exists j :: 0 <= j < i && ps[j].name == n
      invariant UniqueNames(ps[..i])
    {
      if ps[i].name in names {
        return true;
      }
      names := names + {ps[i].name};
    }
    assert ps[..|ps|] == ps;
    return false;
  }

  /** Rejects a dependency on a project that is not configured. */
  method CheckDependencies(ps: seq<Project>) returns (unknown: bool)
    ensures unknown <==> !KnownDependencies(ps)
  {
    for i := 0 to |ps|
      invariant KnownUpTo(ps, i, 0)
    {
      for k := 0 to |ps[i].dependencies|
        invariant KnownUpTo(ps, i, k)
      {
        if ps[i].dependencies[k] !in Names(ps) {
          assert ps[i] in ps && ps[i].dependencies[k] in ps[i].dependencies;
          return true;
        }
      }
    }
    return false;
  }

  ghost predicate KnownUpTo(ps: seq<Project>, i: nat, k: nat) {
    && (forall j, d :: 0 <= j < i && j < |ps| && d in ps[j].dependencies ==> d in Names(ps))
    && (i < |ps| ==> forall m :: 0 <= m < k && m < |ps[i].dependencies| ==> ps[i].dependencies[m] in Names(ps))
  }

  // What the graph holds once the first i projects and k dependencies of the next are in.
  ghost predicate BuiltUpTo(ps: seq<Project>, i: nat, k: nat, g: Digraph)
    requires i <= |ps| && (i < |ps| ==> k <= |ps[i].dependencies|)
  {
    && g.vertices <= Names(ps)
    && (forall j :: 0 <= j < i ==> ps[j].name in g.vertices)
    && (i < |ps| && k > 0 ==> ps[i].name in g.vertices)
    && g.edges == DependencyEdges(ps[..i]) +
                  (if i < |ps| then DependencyEdges([ps[i].(dependencies := ps[i].dependencies[..k])]) else {})
    && (forall j :: 0 <= j < i ==> NoRepeats(ps[j].dependencies))
    && (i < |ps| ==> NoRepeats(ps[i].dependencies[..k]))
  }

  lemma BuildStarts(ps: seq<Project>)
    ensures BuiltUpTo(ps, 0, 0, Digraph({}, {}))
  {
    assert DependencyEdges(ps[..0]) == {};
    if |ps| > 0 {
      assert DependencyEdges([ps[0].(dependencies := ps[0].dependencies[..0])]) == {};
    }
  }

  lemma VertexStep(ps: seq<Project>, i: nat, k: nat, g: Digraph, v: Name)
    requires i < |ps| && k <= |ps[i].dependencies| && v in Names(ps) && BuiltUpTo(ps, i, k, g)
    ensures BuiltUpTo(ps, i, k, Digraph(g.vertices + {v}, g.edges))
  {}

  // The defect of the configuration that each refused edge shows.
  ghost predicate IsDefect(ps: seq<Project>, cause: GraphError) {
    match cause
    case EdgeAlreadyExists => !NoRepeatedDependency(ps)
    case EdgeCreatesCycle => !Acyclic(DependencyEdges(ps))
    case _ => false
  }

  // One more dependency: either it extends the build, or the configuration was not loadable.
  lemma EdgeStep(ps: seq<Project>, i: nat, k: nat, g: Digraph)
    requires UniqueNames(ps) && i < |ps| && k < |ps[i].dependencies| && IsDag(g)
    requires BuiltUpTo(ps, i, k, g)
    requires ps[i].name in g.vertices && ps[i].dependencies[k] in g.vertices
    ensures match WithEdge(g, ps[i].dependencies[k], ps[i].name)
            case Success(h) => BuiltUpTo(ps, i, k + 1, h)
            case Failure(cause) => IsDefect(ps, cause)
  {
    var d, name := ps[i].dependencies[k], ps[i].name;
    assert ps[i] in ps && d in ps[i].dependencies;
    var all := DependencyEdges(ps);
    assert (d, name) in all;
    assert g.edges <= all;
    if (d, name) in g.edges {
      assert (d, name) !in DependencyEdges(ps[..i]);
      var m :| 0 <= m < k && ps[i].dependencies[..k][m] == d;
      assert ps[i].dependencies[m] == ps[i].dependencies[k];
      assert !NoRepeats(ps[i].dependencies);
    } else if Reaches(g.edges, name, d) {
      ReachesMonotone(g.edges, all, name, d);
    } else {
      var was, now :=
        ps[i].(dependencies := ps[i].dependencies[..k]), ps[i].(dependencies := ps[i].dependencies[..k + 1]);
      assert now.dependencies == was.dependencies + [d];
      assert DependencyEdges([now]) == DependencyEdges([was]) + {(d, name)};
      forall m, l | 0 <= m < l < k + 1 ensures now.dependencies[m] != now.dependencies[l] {
        if l == k {
          assert was in [was] && was.dependencies[m] in was.dependencies;
          assert (was.dependencies[m], name) in DependencyEdges([was]);
        } else {
          assert was.dependencies[m] != was.dependencies[l];
        }
      }
    }
  }

  lemma ProjectDone(ps: seq<Project>, i: nat, g: Digraph)
    requires i < |ps| && ps[i].name in g.vertices
    requires BuiltUpTo(ps, i, |ps[i].dependencies|, g)
    ensures BuiltUpTo(ps, i + 1, 0, g)
  {
    assert ps[i].dependencies[..|ps[i].dependencies|] == ps[i].dependencies;
    assert ps[i].(dependencies := ps[i].dependencies) == ps[i];
    assert ps[..i + 1] == ps[..i] + [ps[i]];
    assert DependencyEdges(ps[..i + 1]) == DependencyEdges(ps[..i]) + DependencyEdges([ps[i]]);
    if i + 1 < |ps| {
      assert DependencyEdges([ps[i + 1].(dependencies := ps[i + 1].dependencies[..0])]) == {};
    }
  }

  /** The dependencies of one project: each is an edge to the project that lists it. */
  method AddDependencies(ps: seq<Project>, i: nat, g: ProjectGraph) returns (err: Option<ConfigError>)
    requires UniqueNames(ps) && i < |ps| && g.Valid()
    requires BuiltUpTo(ps, i, 0, g.Model()) && ps[i].name in g.vertices
    modifies g
    ensures g.Valid()
    ensures err == None ==> BuiltUpTo(ps, i + 1, 0, g.Model()) && forall d :: d in ps[i].dependencies ==> d in Names(ps)
    ensures err.Some? ==> Rejected(ps, err.value)
  {
    for k := 0 to |ps[i].dependencies|
      invariant g.Valid() && BuiltUpTo(ps, i, k, g.Model()) && ps[i].name in g.vertices
      invariant forall m :: 0 <= m < k ==> ps[i].dependencies[m] in Names(ps)
    {
      var d := ps[i].dependencies[k];
      if d !in g.vertices {
        if d !in Names(ps) {
          assert ps[i] in ps && d in ps[i].dependencies;
          return Some(UnknownDependency);
        }
        VertexStep(ps, i, k, g.Model(), d);
        var e := g.AddVertex(d);
        assert e == None;
      }
      EdgeStep(ps, i, k, g.Model());
      var e := g.AddEdge(d, ps[i].name);
      if e.Some? {
        return Some(BadGraph(e.value));
      }
    }
    ProjectDone(ps, i, g.Model());
    return None;
  }

  // What each error of the graph construction says about the configuration.
  ghost predicate Rejected(ps: seq<Project>, err: ConfigError) {
    match err
    case DuplicatedName => false
    case UnknownDependency => !KnownDependencies(ps)
    case BadGraph(cause) => IsDefect(ps, cause)
  }

  /** Builds the graph: each project is a vertex, each dependency an edge to the project that lists it. */
  method CreateProjectDependencyGraph(ps: seq<Project>) returns (err: Option<ConfigError>, g: ProjectGraph)
    requires UniqueNames(ps)
    ensures g.Valid()
    ensures err == None ==> Loadable(ps) && g.Model() == Digraph(Names(ps), DependencyEdges(ps))
    ensures err.Some? ==> Rejected(ps, err.value)
  {
    g := new ProjectGraph();
    BuildStarts(ps);
    for i := 0 to |ps|
      invariant g.Valid() && BuiltUpTo(ps, i, 0, g.Model())
      invariant forall j, d :: 0 <= j < i && d in ps[j].dependencies ==> d in Names(ps)
    {
      assert ps[i] in ps;
      if ps[i].name !in g.vertices {
        VertexStep(ps, i, 0, g.Model(), ps[i].name);
        var e := g.AddVertex(ps[i].name);
        assert e == None;
      }
      err := AddDependencies(ps, i, g);
      if err.Some? {
        return;
      }
    }
    assert ps[..|ps|] == ps;
    assert g.edges == DependencyEdges(ps);
    return None, g;
  }

  /** The part of the configuration loader that can reject the list of projects. */
  method ConvertDiggerYamlToConfig(ps: seq<Project>) returns (err: Option<ConfigError>, g: ProjectGraph)
    ensures g.Valid()
    ensures err == None <==> Loadable(ps)
    ensures err == None ==> g.Model() == Digraph(Names(ps), DependencyEdges(ps))
    ensures err == None ==>
      && (forall v :: v in g.vertices <==> exists p :: p in ps && p.name == v)
      && (forall source, target :: (source, target) in g.edges <==>
            exists p :: p in ps && source in p.dependencies && p.name == target)
    ensures err == Some(DuplicatedName) <==> !UniqueNames(ps)
    ensures err == Some(UnknownDependency) <==> UniqueNames(ps) && !KnownDependencies(ps)
    ensures err.Some? && err.value.BadGraph? ==> IsDefect(ps, err.value.cause)
  {
    var duplicated := CheckNames(ps);
    if duplicated {
      g := new ProjectGraph();
      return Some(DuplicatedName), g;
    }
    var unknown := CheckDependencies(ps);
    if unknown {
      g := new ProjectGraph();
      return Some(UnknownDependency), g;
    }
    err, g := CreateProjectDependencyGraph(ps);
  }
}
