/**
 The order of dispatches in terms of the dependency graph. Runs honour all dependencies exactly when no
 impacted project has two sources; otherwise some iteration order and some run dispatch a project while one
 it depends on has not even started.
 */
module SchedulerOrder {
  import opened Wrappers
  import opened Graphs
  import opened Tables
  import opened JobCreation
  import opened Scheduling
  import opened SchedulerAnyRun
  import opened SchedulerMachine
  import opened SchedulerSafety
  import opened SchedulerTheorems
  import Collapse
  import ContractionMeaning
  import SchedulerOverlap

  // Step i of a run dispatches job j.
  ghost predicate Dispatches(limit: int, states: seq<State>, actions: seq<Action>, i: nat, j: nat) {
    && IsRun(limit, states, actions) && NoOverlap(states, actions) && i < |actions|
    && states[i + 1].db.dispatched == states[i].db.dispatched + [j]
    && j < |states[i].db.jobs| && states[i].db.jobs[j].batch < |states[i].plans|
  }

  // The project u has a job in the batch of job j, and that job has succeeded.
  ghost predicate HasSucceeded(s: State, j: nat, u: Name)
    requires j < |s.db.jobs|
  {
    exists a :: IsJobOf(s.db, a, s.db.jobs[j].batch, u) && s.db.jobs[a].status == Succeeded
  }

  // The batch of job j was built along the walks, and its project depends on u, which is impacted too.
  ghost predicate DependsOn(g: Digraph, impacted: set<Name>, walks: seq<Collapse.Visit>, s: State, j: nat, u: Name)
    requires IsDag(g) && Collapse.WalksAll(g, walks)
    requires j < |s.db.jobs| && s.db.jobs[j].batch < |s.plans|
  {
    && s.plans[s.db.jobs[j].batch] == ContractionMeaning.Contraction(g, impacted, walks)
    && u in impacted * g.vertices && u != s.db.jobs[j].project && Reaches(g.edges, u, s.db.jobs[j].project)
  }

  // Whatever job of a batch built along the walks is dispatched, the impacted projects it depends on, however
  // indirectly, have succeeded.
  ghost predicate Honours(limit: int, g: Digraph, impacted: set<Name>, walks: seq<Collapse.Visit>)
    requires IsDag(g) && Collapse.WalksAll(g, walks)
  {
    forall states: seq<State>, actions: seq<Action>, i: nat, j: nat, u: Name ::
      Dispatches(limit, states, actions, i, j) && DependsOn(g, impacted, walks, states[i], j, u) ==>
        HasSucceeded(states[i], j, u)
  }

  // If no impacted project has two sources, a dispatched job comes after all its dependencies.
  lemma DispatchedAfterDependencies(limit: int, states: seq<State>, actions: seq<Action>, i: nat, j: nat,
                                    g: Digraph, impacted: set<Name>, walks: seq<Collapse.Visit>, u: Name)
    requires Dispatches(limit, states, actions, i, j)
    requires IsDag(g) && Collapse.WalksAll(g, walks) && ContractionMeaning.OneSourceEach(g, impacted)
    requires DependsOn(g, impacted, walks, states[i], j, u)
    ensures HasSucceeded(states[i], j, u)
  {
    var s := states[i];
    var b, v := s.db.jobs[j].batch, s.db.jobs[j].project;
    RunKeepsInv(limit, states, actions, i);
    DispatchedOnceAfterAncestors(limit, states, actions, i, j);
    Collapse.ContractionOfAnyWalk(g, impacted, walks);
    ContractionMeaning.OneSourceKeepsOrder(g, impacted, walks);
    assert Mirrors(s.db, s.plans, j);
    assert v in impacted * g.vertices;
    assert Reaches(s.plans[b].edges, u, v);
    assert HasJob(s.db, b, u);
    var a :| 0 <= a < |s.db.jobs| && s.db.jobs[a].batch == b && s.db.jobs[a].project == u;
    assert IsJobOf(s.db, a, b, u);
  }

  // A run down a path of the contracted graph

  // One batch; the jobs of the path before its last vertex have succeeded, that of the last has just been
  // triggered, and all others are as created.
  ghost predicate DownTo(s: State, c: Digraph, q: seq<Name>, j: nat)
    requires q != []
  {
    && s.plans == [c]
    && IsJobOf(s.db, j, 0, q[|q| - 1]) && s.db.jobs[j].status == Triggered
    && forall a :: 0 <= a < |s.db.jobs| && a != j ==>
         s.db.jobs[a].status == if s.db.jobs[a].project in q[..|q| - 1] then Succeeded else Created
  }

  // The jobs of one batch, by project.
  lemma OneBatch(limit: int, s: State, a: nat)
    requires Inv(limit, s) && |s.plans| == 1 && a < |s.db.jobs|
    ensures s.db.jobs[a].batch == 0 && s.db.jobs[a].project in s.plans[0].vertices
    ensures forall i :: 0 <= i < |s.db.jobs| && i != a ==> s.db.jobs[i].project != s.db.jobs[a].project
  {
    assert Mirrors(s.db, s.plans, a);
    forall i | 0 <= i < |s.db.jobs| && i != a ensures s.db.jobs[i].project != s.db.jobs[a].project {
      assert Mirrors(s.db, s.plans, i);
      assert i < a ==> s.db.jobs[i].batch != s.db.jobs[a].batch || s.db.jobs[i].project != s.db.jobs[a].project;
    }
  }

  // Extends a run by one step that starts no cron run.
  lemma ExtendRun(limit: int, states: seq<State>, actions: seq<Action>, a: Action)
    returns (longer: seq<State>, more: seq<Action>)
    requires IsRun(limit, states, actions) && NoOverlap(states, actions)
    requires Enabled(states[|actions|], a) && !a.StartCron?
    ensures IsRun(limit, longer, more) && NoOverlap(longer, more)
    ensures more == actions + [a] && longer == states + [Next(limit, states[|actions|], a)]
    ensures Inv(limit, Next(limit, states[|actions|], a))
  {
    longer, more := SchedulerOverlap.Extend(limit, states, actions, a);
    forall i {:trigger more[i]} | 0 <= i < |more| && more[i].StartCron? ensures NoRetry(longer[i]) {
      assert more[i] == actions[i];
    }
    RunKeepsInv(limit, longer, more, |more|);
  }

  lemma FirstBatch(limit: int, c: Digraph) returns (states: seq<State>, actions: seq<Action>)
    requires IsDag(c) && OneParentEach(c)
    ensures IsRun(limit, states, actions) && NoOverlap(states, actions)
    ensures var s := states[|actions|];
            && s.plans == [c] && |s.db.batches| == 1 && s.todo == multiset{Dispatch(0)}
            && forall a :: 0 <= a < |s.db.jobs| ==> s.db.jobs[a].status == Created
  {
    var visits := VisitsExist(c);
    ConversionAppends(START, c, visits);
    states, actions := ExtendRun(limit, [START], [], NewBatch(BatchRow(OtherBatch, BatchCreated, false), c, visits));
  }

  lemma BatchStarts(limit: int, c: Digraph) returns (states: seq<State>, actions: seq<Action>)
    requires IsDag(c) && OneParentEach(c)
    ensures IsRun(limit, states, actions) && NoOverlap(states, actions)
    ensures var s := states[|actions|];
            && s.plans == [c] && Dispatch(0) !in s.todo
            && forall a :: 0 <= a < |s.db.jobs| ==> s.db.jobs[a].status == Created
  {
    states, actions := FirstBatch(limit, c);
    var s := states[|actions|];
    InitialTokensCount(s.db, 0, |s.db.jobs|, Dispatch(0));
    states, actions := ExtendRun(limit, states, actions, Perform(Dispatch(0)));
  }

  lemma JobAt(limit: int, s: State, v: Name) returns (j: nat)
    requires Inv(limit, s) && |s.plans| == 1 && v in s.plans[0].vertices
    ensures IsJobOf(s.db, j, 0, v)
  {
    assert HasJob(s.db, 0, v);
    j :| 0 <= j < |s.db.jobs| && s.db.jobs[j].batch == 0 && s.db.jobs[j].project == v;
  }

  // With nothing running, a job whose turn has come is triggered.
  lemma TurnTriggers(limit: int, s: State, task: Task)
    requires limit >= 0 && Inv(limit, s) && task in s.todo && (task.Initial? || task.Child?)
    requires forall i :: 0 <= i < |s.db.jobs| ==> !Running(s.db.jobs[i].status)
    ensures Enabled(s, Perform(task)) && s.db.jobs[task.job].batch < |s.plans|
    ensures Next(limit, s, Perform(task)) == State(AfterTrigger(s.db, task.job), s.todo - multiset{task}, s.plans)
  {
    assert Fits(s, task) && Mirrors(s.db, s.plans, task.job);
    TaskIsDue(s, task, task.job);
    assert ActiveJobs(s.db.jobs, s.db.jobs[task.job].batch) == {};
  }

  // A run goes on by triggering a job whose turn has come.
  lemma TurnTaken(limit: int, states: seq<State>, actions: seq<Action>, task: Task)
    returns (longer: seq<State>, more: seq<Action>)
    requires limit >= 0 && IsRun(limit, states, actions) && NoOverlap(states, actions)
    requires var s := states[|actions|];
             && task in s.todo && (task.Initial? || task.Child?)
             && forall i :: 0 <= i < |s.db.jobs| ==> !Running(s.db.jobs[i].status)
    ensures |more| > 0 && Dispatches(limit, longer, more, |more| - 1, task.job)
    ensures longer[|more| - 1] == states[|actions|] && longer[|more|].plans == states[|actions|].plans
    ensures longer[|more|].db == AfterTrigger(states[|actions|].db, task.job)
  {
    var s := states[|actions|];
    RunKeepsInv(limit, states, actions, |actions|);
    TurnTriggers(limit, s, task);
    longer, more := ExtendRun(limit, states, actions, Perform(task));
  }

  lemma RootsTurn(limit: int, s: State, c: Digraph, r: Name) returns (j: nat)
    requires Inv(limit, s) && s.plans == [c] && Dispatch(0) !in s.todo && r in Roots(c)
    requires forall a :: 0 <= a < |s.db.jobs| ==> s.db.jobs[a].status == Created
    ensures IsJobOf(s.db, j, 0, r) && Initial(j) in s.todo
  {
    j := JobAt(limit, s, r);
    assert Mirrors(s.db, s.plans, j) && Owned(s, j);
  }

  lemma RootDispatched(limit: int, c: Digraph, r: Name) returns (states: seq<State>, actions: seq<Action>, j: nat)
    requires limit >= 0 && IsDag(c) && OneParentEach(c) && r in Roots(c)
    ensures |actions| > 0 && Dispatches(limit, states, actions, |actions| - 1, j)
    ensures DownTo(states[|actions|], c, [r], j)
    ensures states[|actions|].db == AfterTrigger(states[|actions| - 1].db, j) && states[|actions| - 1].plans == [c]
  {
    states, actions := BatchStarts(limit, c);
    RunKeepsInv(limit, states, actions, |actions|);
    j := RootsTurn(limit, states[|actions|], c, r);
    states, actions := TurnTaken(limit, states, actions, Initial(j));
    assert [r][..0] == [];
  }

  // The parent's success makes its child's turn.

  lemma SuccessReported(limit: int, s: State, p: nat)
    requires Inv(limit, s) && p < |s.db.jobs| && s.db.jobs[p].status == Triggered
    ensures Enabled(s, Report(p, Succeeded, false))
    ensures var t := Next(limit, s, Report(p, Succeeded, false));
            && t.todo == s.todo + multiset{Complete(p)} && t.plans == s.plans
            && t.db.jobs == WithStatus(s.db, p, Succeeded).jobs && t.db.links == s.db.links
  {}

  lemma ChildGetsItsTurn(limit: int, s: State, p: nat, k: nat)
    requires DistinctChildren(s.db.links) && p < |s.db.jobs| && Complete(p) in s.todo
    requires ParentOf(s.db.links, k) == Some(p)
    ensures Enabled(s, Perform(Complete(p)))
    ensures var t := Next(limit, s, Perform(Complete(p)));
            t.db == s.db && t.plans == s.plans && Child(p, k) in t.todo
  {
    ChildTokensCount(s.db.links, p, Child(p, k));
  }

  lemma SuccessMakesTurn(limit: int, states: seq<State>, actions: seq<Action>, p: nat, k: nat)
    returns (longer: seq<State>, more: seq<Action>)
    requires IsRun(limit, states, actions) && NoOverlap(states, actions)
    requires var s := states[|actions|];
             && p < |s.db.jobs| && s.db.jobs[p].status == Triggered && ParentOf(s.db.links, k) == Some(p)
    ensures IsRun(limit, longer, more) && NoOverlap(longer, more)
    ensures var s, t := states[|actions|], longer[|more|];
            && Inv(limit, t) && t.plans == s.plans && Child(p, k) in t.todo
            && t.db.jobs == WithStatus(s.db, p, Succeeded).jobs && t.db.links == s.db.links
  {
    RunKeepsInv(limit, states, actions, |actions|);
    SuccessReported(limit, states[|actions|], p);
    longer, more := ExtendRun(limit, states, actions, Report(p, Succeeded, false));
    ChildGetsItsTurn(limit, longer[|more|], p, k);
    longer, more := ExtendRun(limit, longer, more, Perform(Complete(p)));
  }

  // From one vertex of the path to the next.
  lemma OneFurther(limit: int, states: seq<State>, actions: seq<Action>, c: Digraph, q: seq<Name>, p: nat, v: Name)
    returns (longer: seq<State>, more: seq<Action>, k: nat)
    requires limit >= 0 && IsRun(limit, states, actions) && NoOverlap(states, actions)
    requires q != [] && DownTo(states[|actions|], c, q, p)
    requires IsDag(c) && (q[|q| - 1], v) in c.edges && v !in q
    ensures |more| > 0 && Dispatches(limit, longer, more, |more| - 1, k)
    ensures DownTo(longer[|more|], c, q + [v], k)
    ensures longer[|more|].db == AfterTrigger(longer[|more| - 1].db, k) && longer[|more| - 1].plans == [c]
  {
    var s := states[|actions|];
    RunKeepsInv(limit, states, actions, |actions|);
    k := NextOnPath(limit, s, c, q[|q| - 1], p, v);
    longer, more := SuccessMakesTurn(limit, states, actions, p, k);
    NowDownTo(s, longer[|more|], c, q, p, v, k);
    longer, more := TurnTaken(limit, longer, more, Child(p, k));
  }

  lemma NowDownTo(s: State, t: State, c: Digraph, q: seq<Name>, p: nat, v: Name, k: nat)
    requires q != [] && v !in q && p < |s.db.jobs| && k < |s.db.jobs| && k != p
    requires s.db.jobs[p].project == q[|q| - 1] && s.db.jobs[k].project == v
    requires forall i :: 0 <= i < |s.db.jobs| && i != p ==> s.db.jobs[i].project != s.db.jobs[p].project
    requires forall a :: 0 <= a < |s.db.jobs| && a != p ==>
      s.db.jobs[a].status == if s.db.jobs[a].project in q[..|q| - 1] then Succeeded else Created
    requires t.db.jobs == WithStatus(s.db, p, Succeeded).jobs
    ensures forall a :: 0 <= a < |t.db.jobs| && a != k ==>
      t.db.jobs[a].status == if t.db.jobs[a].project in (q + [v])[..|q|] then Succeeded else Created
  {
    assert (q + [v])[..|q|] == q && q == q[..|q| - 1] + [q[|q| - 1]];
  }

  lemma NextOnPath(limit: int, s: State, c: Digraph, u: Name, p: nat, v: Name) returns (k: nat)
    requires Inv(limit, s) && s.plans == [c] && IsDag(c) && IsJobOf(s.db, p, 0, u) && (u, v) in c.edges && u != v
    ensures IsJobOf(s.db, k, 0, v) && ParentOf(s.db.links, k) == Some(p) && k != p
    ensures forall i :: 0 <= i < |s.db.jobs| && i != p ==> s.db.jobs[i].project != u
  {
    k := JobAt(limit, s, v);
    assert Mirrors(s.db, s.plans, k);
    assert u in Predecessors(c.edges, v);
    OneBatch(limit, s, p);
  }

  // Some run dispatches the end of a path when, of its batch, only the projects on the path have run.
  lemma {:induction false} PathDispatched(limit: int, c: Digraph, q: seq<Name>)
    returns (states: seq<State>, actions: seq<Action>, j: nat)
    requires limit >= 0 && IsDag(c) && OneParentEach(c) && IsPath(c.edges, q) && q[0] in Roots(c)
    ensures |actions| > 0 && Dispatches(limit, states, actions, |actions| - 1, j)
    ensures DownTo(states[|actions|], c, q, j)
    ensures states[|actions|].db == AfterTrigger(states[|actions| - 1].db, j) && states[|actions| - 1].plans == [c]
    decreases |q|
  {
    var n := |q| - 1;
    if n == 0 {
      assert q == [q[0]];
      states, actions, j := RootDispatched(limit, c, q[0]);
    } else {
      var p;
      states, actions, p := PathDispatched(limit, c, q[..n]);
      assert (q[n - 1], q[n]) in c.edges;
      forall i | 0 <= i < n ensures q[i] != q[n] {
        DistinctOnPath(c.edges, q, i, n);
      }
      assert q == q[..n] + [q[n]];
      states, actions, j := OneFurther(limit, states, actions, c, q[..n], p, q[n]);
    }
  }

  // When the run has come down to v, a project that does not lead to v has not started.
  lemma NotOnThePath(limit: int, s: State, t: State, c: Digraph, q: seq<Name>, j: nat, b: Name)
    requires Inv(limit, t) && IsDag(c) && IsPath(c.edges, q) && b in c.vertices && !Reaches(c.edges, b, q[|q| - 1])
    requires DownTo(t, c, q, j) && j < |s.db.jobs| && t.db == AfterTrigger(s.db, j)
    ensures HasJob(s.db, 0, b)
    ensures forall a :: IsJobOf(s.db, a, 0, b) ==> s.db.jobs[a].status == Created
  {
    if k :| 0 <= k < |q| && q[k] == b {
      PathReaches(c.edges, q, k, |q| - 1);
    }
    forall a | 0 <= a < |s.db.jobs| && a != j ensures s.db.jobs[a] == t.db.jobs[a] {}
    var a := JobAt(limit, t, b);
    assert a != j;
    assert IsJobOf(s.db, a, 0, b);
  }

  // A dependency that the contraction forgets can be overtaken: some run dispatches v before b.
  lemma ForgottenIsOvertaken(limit: int, g: Digraph, impacted: set<Name>, walks: seq<Collapse.Visit>, b: Name, v: Name)
    returns (states: seq<State>, actions: seq<Action>, i: nat, j: nat)
    requires limit >= 0 && IsDag(g) && Collapse.WalksAll(g, walks)
    requires ContractionMeaning.Forgets(g, impacted, walks, b, v)
    ensures Dispatches(limit, states, actions, i, j) && IsJobOf(states[i].db, j, 0, v)
    ensures states[i].plans == [ContractionMeaning.Contraction(g, impacted, walks)]
    ensures HasJob(states[i].db, 0, b)
    ensures forall a :: IsJobOf(states[i].db, a, 0, b) ==> states[i].db.jobs[a].status == Created
  {
    var c := ContractionMeaning.Contraction(g, impacted, walks);
    Collapse.ContractionOfAnyWalk(g, impacted, walks);
    Collapse.OneParentInContraction(g, impacted, c);
    states, actions, i, j := OvertakenIn(limit, c, b, v);
  }

  lemma OvertakenIn(limit: int, c: Digraph, b: Name, v: Name)
    returns (states: seq<State>, actions: seq<Action>, i: nat, j: nat)
    requires limit >= 0 && IsDag(c) && OneParentEach(c) && b in c.vertices && v in c.vertices
    requires !Reaches(c.edges, b, v)
    ensures Dispatches(limit, states, actions, i, j) && IsJobOf(states[i].db, j, 0, v)
    ensures states[i].plans == [c] && HasJob(states[i].db, 0, b)
    ensures forall a :: IsJobOf(states[i].db, a, 0, b) ==> states[i].db.jobs[a].status == Created
  {
    var q := RootPath(c, v);
    states, actions, j := PathDispatched(limit, c, q);
    i := |actions| - 1;
    RunKeepsInv(limit, states, actions, |actions|);
    NotOnThePath(limit, states[i], states[|actions|], c, q, j, b);
  }

  // A project with two sources: some iteration order and some run dispatch it before an impacted project that it
  // depends on has started.
  lemma TwoSourcesOvertake(limit: int, g: Digraph, impacted: set<Name>, v: Name, s: Option<Name>, s': Option<Name>)
    returns (walks: seq<Collapse.Visit>, b: Name, states: seq<State>, actions: seq<Action>, i: nat, j: nat)
    requires limit >= 0 && IsDag(g) && v in impacted * g.vertices && s != s'
    requires Collapse.IsSource(g, impacted, s, v) && Collapse.IsSource(g, impacted, s', v)
    ensures Collapse.WalksAll(g, walks) && b in impacted * g.vertices && b != v && Reaches(g.edges, b, v)
    ensures Dispatches(limit, states, actions, i, j) && IsJobOf(states[i].db, j, 0, v)
    ensures states[i].plans == [ContractionMeaning.Contraction(g, impacted, walks)]
    ensures HasJob(states[i].db, 0, b)
    ensures forall a :: IsJobOf(states[i].db, a, 0, b) ==> states[i].db.jobs[a].status == Created
  {
    walks, b := ContractionMeaning.OneOfTwoLost(g, impacted, v, s, s');
    states, actions, i, j := ForgottenIsOvertaken(limit, g, impacted, walks, b, v);
  }

  // All runs honour all dependencies, for every iteration order, if and only if no impacted project has two sources.
  lemma DependenciesHonouredIff(limit: int, g: Digraph, impacted: set<Name>)
    requires limit >= 0 && IsDag(g)
    ensures (forall walks :: Collapse.WalksAll(g, walks) ==> Honours(limit, g, impacted, walks)) <==>
            ContractionMeaning.OneSourceEach(g, impacted)
  {
    if ContractionMeaning.OneSourceEach(g, impacted) {
      forall walks | Collapse.WalksAll(g, walks) ensures Honours(limit, g, impacted, walks) {
        OneSourceHonours(limit, g, impacted, walks);
      }
    } else {
      var v, s, s' :|
        v in impacted * g.vertices && Collapse.IsSource(g, impacted, s, v) && Collapse.IsSource(g, impacted, s', v)
        && s != s';
      var walks := TwoSourcesDishonour(limit, g, impacted, v, s, s');
    }
  }

  lemma TwoSourcesDishonour(limit: int, g: Digraph, impacted: set<Name>, v: Name, s: Option<Name>, s': Option<Name>)
    returns (walks: seq<Collapse.Visit>)
    requires limit >= 0 && IsDag(g) && v in impacted * g.vertices && s != s'
    requires Collapse.IsSource(g, impacted, s, v) && Collapse.IsSource(g, impacted, s', v)
    ensures Collapse.WalksAll(g, walks) && !Honours(limit, g, impacted, walks)
  {
    var b, states, actions, i, j;
    walks, b, states, actions, i, j := TwoSourcesOvertake(limit, g, impacted, v, s, s');
    assert DependsOn(g, impacted, walks, states[i], j, b);
    assert !HasSucceeded(states[i], j, b);
  }

  lemma OneSourceHonours(limit: int, g: Digraph, impacted: set<Name>, walks: seq<Collapse.Visit>)
    requires IsDag(g) && Collapse.WalksAll(g, walks) && ContractionMeaning.OneSourceEach(g, impacted)
    ensures Honours(limit, g, impacted, walks)
  {
    forall states: seq<State>, actions: seq<Action>, i: nat, j: nat, u: Name |
      Dispatches(limit, states, actions, i, j) && DependsOn(g, impacted, walks, states[i], j, u)
      ensures HasSucceeded(states[i], j, u)
    {
      DispatchedAfterDependencies(limit, states, actions, i, j, g, impacted, walks, u);
    }
  }
}
