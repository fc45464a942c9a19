/** The backend's operations on its tables, as the source runs them. */
module Backend {
  import opened Wrappers
  import opened Graphs
  import opened Tables
  import opened JobCreation
  import opened Scheduling
  import opened SchedulerMachine
  import Collapse
  import ContractionMeaning
  import ImpactedGraph
  import Traversal

  datatype Conversion = Converted | GraphRejected(cause: GraphError) | Panicked

  datatype RequestStatus = Known(status: JobStatus) | Unexpected

  // The effect of one iteration of a scheduling loop.
  function AfterTask(limit: int, db: Db, task: Task): Db
    requires !task.Dispatch? && !task.Complete? && task.job < |db.jobs| && (task.Child? ==> task.parent < |db.jobs|)
  {
    if task.Child? then AfterChild(limit, db, db.jobs[task.parent].batch, task.job)
    else AfterSchedule(limit, db, db.jobs[task.job].batch, task.job)
  }

  predicate Handles(db: Db, tasks: seq<Task>) {
    forall t :: t in tasks ==> !t.Dispatch? && !t.Complete? && t.job < |db.jobs| && (t.Child? ==> t.parent < |db.jobs|)
  }

  // A whole loop, one iteration after the other.
  function AfterTasks(limit: int, db: Db, tasks: seq<Task>): (r: Db)
    requires Handles(db, tasks)
    ensures |r.jobs| == |db.jobs| && r.links == db.links && r.batches == db.batches
    ensures forall i :: 0 <= i < |r.jobs| ==> r.jobs[i].batch == db.jobs[i].batch
    decreases |tasks|
  {
    if tasks == [] then db
    else
      var before := AfterTasks(limit, db, tasks[..|tasks| - 1]);
      AfterTask(limit, before, tasks[|tasks| - 1])
  }

  lemma OneMoreTask(limit: int, db: Db, tasks: seq<Task>, i: nat)
    requires Handles(db, tasks) && i < |tasks|
    ensures tasks[i] in tasks && Handles(db, tasks[..i]) && Handles(db, tasks[..i + 1])
    ensures AfterTasks(limit, db, tasks[..i + 1]) == AfterTask(limit, AfterTasks(limit, db, tasks[..i]), tasks[i])
  {
    assert tasks[..i + 1][..i] == tasks[..i];
  }

  function InitialTasks(db: Db, b: nat, n: nat): seq<Task>
    requires n <= |db.jobs|
  {
    if n == 0 then []
    else InitialTasks(db, b, n - 1) + if IsPendingParent(db, b, n - 1) then [Initial(n - 1)] else []
  }

  function ChildTasks(links: seq<LinkRow>, p: nat): seq<Task> {
    if links == [] then []
    else
      var last := links[|links| - 1];
      ChildTasks(links[..|links| - 1], p) + if last.parent == p then [Child(p, last.child)] else []
  }

  function RetryTasks(jobs: seq<JobRow>, n: nat): seq<Task>
    requires n <= |jobs|
  {
    if n == 0 then []
    else RetryTasks(jobs, n - 1) + if jobs[n - 1].status == QueuedForRun then [Retry(n - 1)] else []
  }

  // The rows a loop fetches are the tokens its start puts into the machine.
  lemma {:induction false} InitialTasksAreTokens(db: Db, b: nat, n: nat)
    requires n <= |db.jobs|
    ensures multiset(InitialTasks(db, b, n)) == InitialTokens(db, b, n)
    ensures forall t :: t in InitialTasks(db, b, n) ==> t.Initial? && t.job < n && IsPendingParent(db, b, t.job)
    decreases n
  {
    if n > 0 {
      InitialTasksAreTokens(db, b, n - 1);
    }
  }

  lemma {:induction false} ChildTasksAreTokens(links: seq<LinkRow>, p: nat)
    ensures multiset(ChildTasks(links, p)) == ChildTokens(links, p)
    ensures forall t :: t in ChildTasks(links, p) ==> t.Child? && t.parent == p && LinkRow(p, t.job) in links
    decreases |links|
  {
    if links != [] {
      ChildTasksAreTokens(links[..|links| - 1], p);
    }
  }

  lemma {:induction false} RetryTasksAreTokens(jobs: seq<JobRow>, n: nat)
    requires n <= |jobs|
    ensures multiset(RetryTasks(jobs, n)) == RetryTokens(jobs, n)
    ensures forall t :: t in RetryTasks(jobs, n) ==> t.Retry? && t.job < n && jobs[t.job].status == QueuedForRun
    decreases n
  {
    if n > 0 {
      RetryTasksAreTokens(jobs, n - 1);
    }
  }

  // And they are exactly the rows the queries ask for, each once.

  lemma {:induction false} InitialTasksMean(db: Db, b: nat, n: nat)
    requires n <= |db.jobs|
    ensures forall t :: t in InitialTasks(db, b, n) <==>
              t.Initial? && t.job < n && db.jobs[t.job].batch == b && db.jobs[t.job].status == Created
              && forall k :: 0 <= k < |db.links| ==> db.links[k].child != t.job
    ensures forall i, k ::
      0 <= i < k < |InitialTasks(db, b, n)| ==> InitialTasks(db, b, n)[i] != InitialTasks(db, b, n)[k]
    decreases n
  {
    if n > 0 {
      InitialTasksMean(db, b, n - 1);
    }
  }

  lemma {:induction false} ChildTasksMean(links: seq<LinkRow>, p: nat)
    ensures forall t :: t in ChildTasks(links, p) <==> t.Child? && t.parent == p && LinkRow(p, t.job) in links
    decreases |links|
  {
    if links != [] {
      var init, last := links[..|links| - 1], links[|links| - 1];
      ChildTasksMean(init, p);
      assert links == init + [last];
      assert forall l :: l in links <==> l in init || l == last;
    }
  }

  lemma {:induction false} RetryTasksMean(jobs: seq<JobRow>, n: nat)
    requires n <= |jobs|
    ensures forall t :: t in RetryTasks(jobs, n) <==> t.Retry? && t.job < n && jobs[t.job].status == QueuedForRun
    ensures forall i, k :: 0 <= i < k < |RetryTasks(jobs, n)| ==> RetryTasks(jobs, n)[i] != RetryTasks(jobs, n)[k]
    decreases n
  {
    if n > 0 {
      RetryTasksMean(jobs, n - 1);
    }
  }

  // A completion schedules exactly the children all of whose parents have succeeded, and touches no other job.

  ghost predicate Ready(db: Db, c: nat) {
    forall k :: 0 <= k < |db.links| && db.links[k].child == c ==>
      db.links[k].parent < |db.jobs| && db.jobs[db.links[k].parent].status == Succeeded
  }

  lemma {:induction false} ChildrenScheduled(limit: int, db: Db, tasks: seq<Task>)
    requires Handles(db, tasks)
    requires forall t :: t in tasks ==> t.Child? && db.jobs[t.job].status == Created
    ensures var after := AfterTasks(limit, db, tasks);
            forall c: nat :: c < |db.jobs| ==>
              if Ready(db, c) && exists t :: t in tasks && t.job == c
              then after.jobs[c].status == Triggered || after.jobs[c].status == QueuedForRun
              else after.jobs[c] == db.jobs[c]
    decreases |tasks|
  {
    if tasks != [] {
      var init, last := tasks[..|tasks| - 1], tasks[|tasks| - 1];
      assert tasks == init + [last];
      assert forall t :: t in tasks <==> t in init || t == last;
      ChildrenScheduled(limit, db, init);
      var before := AfterTasks(limit, db, init);
      SameReady(db, before, last.job);
      ScheduleMeans(limit, before, before.jobs[last.parent].batch, last.job);
    }
  }

  lemma SameReady(db: Db, before: Db, c: nat)
    requires before.links == db.links && |before.jobs| == |db.jobs|
    requires forall i :: 0 <= i < |db.jobs| ==>
      before.jobs[i] == db.jobs[i] || (db.jobs[i].status == Created && before.jobs[i].status != Succeeded)
    ensures Ready(db, c) <==> AllParentsSucceeded(before, c)
  {
    forall k | 0 <= k < |db.links| && db.links[k].child == c && db.links[k].parent < |db.jobs|
      ensures db.jobs[db.links[k].parent].status == Succeeded <==> before.jobs[db.links[k].parent].status == Succeeded
    {}
  }

  lemma CompletionMeans(limit: int, db: Db, p: nat)
    requires p < |db.jobs| && forall k :: 0 <= k < |db.links| ==> db.links[k].child < |db.jobs|
    requires forall k :: 0 <= k < |db.links| && db.links[k].parent == p ==> db.jobs[db.links[k].child].status == Created
    ensures Handles(db, ChildTasks(db.links, p))
    ensures var after := AfterTasks(limit, db, ChildTasks(db.links, p));
            forall c: nat :: c < |db.jobs| ==>
              if LinkRow(p, c) in db.links && Ready(db, c)
              then after.jobs[c].status == Triggered || after.jobs[c].status == QueuedForRun
              else after.jobs[c] == db.jobs[c]
  {
    var tasks := ChildTasks(db.links, p);
    ChildTasksMean(db.links, p);
    ChildrenScheduled(limit, db, tasks);
    forall c: nat ensures LinkRow(p, c) in db.links <==> exists t :: t in tasks && t.job == c {
      assert LinkRow(p, c) in db.links ==> Child(p, c) in tasks;
    }
  }

  ghost predicate Performs(limit: int, states: seq<State>, tasks: seq<Task>) {
    && |states| == |tasks| + 1
    && forall i {:trigger tasks[i]} :: 0 <= i < |tasks| ==>
       Enabled(states[i], Perform(tasks[i])) && states[i + 1] == Next(limit, states[i], Perform(tasks[i]))
  }

  lemma PerformsOneMore(limit: int, states: seq<State>, init: seq<Task>, last: Task, t: State)
    returns (more: seq<State>)
    requires Performs(limit, states, init) && Enabled(states[|init|], Perform(last)) &&
      t == Next(limit, states[|init|], Perform(last))
    ensures Performs(limit, more, init + [last]) && more[0] == states[0] && more[|init| + 1] == t
  {
    more := states + [t];
  }

  // A loop that is not interrupted is one of the machine's runs.
  lemma {:induction false} LoopIsARun(limit: int, s: State, tasks: seq<Task>) returns (states: seq<State>)
    requires Handles(s.db, tasks) && multiset(tasks) <= s.todo
    ensures Performs(limit, states, tasks) && states[0] == s
    ensures states[|tasks|] == AfterLoop(limit, s, tasks)
    decreases |tasks|
  {
    if tasks == [] {
      states := [s];
    } else {
      var init, last := tasks[..|tasks| - 1], tasks[|tasks| - 1];
      LastOfTasks(tasks, s.todo);
      states := LoopIsARun(limit, s, init);
      LastOfLoop(limit, s, tasks);
      states := PerformsOneMore(limit, states, init, last, AfterLoop(limit, s, tasks));
    }
  }

  ghost function AfterLoop(limit: int, s: State, tasks: seq<Task>): State
    requires Handles(s.db, tasks)
  {
    s.(db := AfterTasks(limit, s.db, tasks), todo := s.todo - multiset(tasks))
  }

  lemma LastOfTasks(tasks: seq<Task>, todo: multiset<Task>)
    requires tasks != [] && multiset(tasks) <= todo
    ensures var init, last := tasks[..|tasks| - 1], tasks[|tasks| - 1];
            && tasks == init + [last]
            && multiset(init) <= todo && last in todo - multiset(init)
            && todo - multiset(init) - multiset{last} == todo - multiset(tasks)
  {
    var init, last := tasks[..|tasks| - 1], tasks[|tasks| - 1];
    assert tasks == init + [last];
    assert multiset(tasks) == multiset(init) + multiset{last};
    assert todo[last] >= multiset(tasks)[last];
  }

  lemma LastOfLoop(limit: int, s: State, tasks: seq<Task>)
    requires tasks != [] && Handles(s.db, tasks) && multiset(tasks) <= s.todo
    ensures var t, last := AfterLoop(limit, s, tasks[..|tasks| - 1]), Perform(tasks[|tasks| - 1]);
            Enabled(t, last) && Next(limit, t, last) == AfterLoop(limit, s, tasks)
  {
    LastOfTasks(tasks, s.todo);
  }

  // The three operations with a loop, run without interruption, are runs of the machine.

  lemma DispatchIsARun(limit: int, s: State, b: nat) returns (states: seq<State>)
    requires Dispatch(b) in s.todo && b < |s.db.batches|
    ensures var tasks := InitialTasks(s.db, b, |s.db.jobs|);
            && Enabled(s, Perform(Dispatch(b))) && Handles(s.db, tasks)
            && Performs(limit, states, tasks) && states[0] == Next(limit, s, Perform(Dispatch(b)))
            && states[|tasks|] == State(AfterTasks(limit, s.db, tasks), s.todo - multiset{Dispatch(b)}, s.plans)
  {
    var t, tasks := Next(limit, s, Perform(Dispatch(b))), InitialTasks(s.db, b, |s.db.jobs|);
    InitialTasksAreTokens(s.db, b, |s.db.jobs|);
    states := LoopIsARun(limit, t, tasks);
    assert t.todo - multiset(tasks) == s.todo - multiset{Dispatch(b)};
  }

  lemma CompletionIsARun(limit: int, s: State, p: nat) returns (states: seq<State>)
    requires Complete(p) in s.todo && p < |s.db.jobs|
    requires forall k :: 0 <= k < |s.db.links| ==> s.db.links[k].child < |s.db.jobs|
    ensures var tasks := ChildTasks(s.db.links, p);
            && Enabled(s, Perform(Complete(p))) && Handles(s.db, tasks)
            && Performs(limit, states, tasks) && states[0] == Next(limit, s, Perform(Complete(p)))
            && states[|tasks|] == State(AfterTasks(limit, s.db, tasks), s.todo - multiset{Complete(p)}, s.plans)
  {
    var t, tasks := Next(limit, s, Perform(Complete(p))), ChildTasks(s.db.links, p);
    ChildTasksAreTokens(s.db.links, p);
    states := LoopIsARun(limit, t, tasks);
    assert t.todo - multiset(tasks) == s.todo - multiset{Complete(p)};
  }

  lemma CronIsARun(limit: int, s: State) returns (states: seq<State>)
    ensures var tasks := RetryTasks(s.db.jobs, |s.db.jobs|);
            && Handles(s.db, tasks) && Performs(limit, states, tasks) && states[0] == Next(limit, s, StartCron)
            && states[|tasks|] == s.(db := AfterTasks(limit, s.db, tasks))
  {
    var t, tasks := Next(limit, s, StartCron), RetryTasks(s.db.jobs, |s.db.jobs|);
    RetryTasksAreTokens(s.db.jobs, |s.db.jobs|);
    states := LoopIsARun(limit, t, tasks);
    assert t.todo - multiset(tasks) == s.todo;
  }

  lemma {:induction false} OutsideSpecsUnread(s: Building, plan: JobCreation.Plan, specs: set<Name>, xs: seq<Visited>)
    requires forall x :: x in xs ==> (x.project in plan.specs <==> x.project in specs)
    ensures AfterVisits(s, plan, xs) == AfterVisits(s, plan.(specs := specs), xs)
    decreases |xs|
  {
    if xs != [] {
      OutsideSpecsUnread(s, plan, specs, xs[..|xs| - 1]);
      var x := xs[|xs| - 1];
      assert x in xs;
      OutsideSpecsUnreadByLoop(AfterVisits(s, plan, xs[..|xs| - 1]), plan, specs, x.project, x.parents);
    }
  }

  lemma {:induction false} OutsideSpecsUnreadByLoop(s: Building, plan: JobCreation.Plan, specs: set<Name>, v: Name,
                                                    ps: seq<Name>)
    requires v in plan.specs <==> v in specs
    ensures AfterParents(s, plan, v, ps) == AfterParents(s, plan.(specs := specs), v, ps)
    decreases ps
  {
    if ps != [] && v in specs && ps[0] in s.result {
      var id := |s.jobs|;
      var t := JobAdded(s, plan.batch, v).(links := s.links + [LinkRow(s.result[ps[0]], id)],
                                           result := s.result[v := id]);
      OutsideSpecsUnreadByLoop(t, plan, specs, v, ps[1..]);
    }
  }

  // What a conversion does: it adds the batch row, contracts along some walks, and visits the contraction
  // parents first up to its end or to a panic; a project with the dummy's name stops it before any visit.
  ghost predicate Converts(projects: Digraph, impacted: set<Name>, marshalledJobs: set<Name>, row: BatchRow, before: Db,
                           outcome: Conversion, walks: seq<Collapse.Visit>, visits: seq<Visited>, after: Db)
    requires IsDag(projects)
  {
    && Collapse.WalksAll(projects, walks)
    && var c := ContractionMeaning.Contraction(projects, impacted, walks);
    var built := AfterVisits(Building(before.jobs, before.links, map[], false),
      JobCreation.Plan(c, marshalledJobs, |before.batches|), visits);
    && (outcome.GraphRejected? <==> Traversal.DUMMY_PARENT in c.vertices)
    && (outcome == Panicked <==> !outcome.GraphRejected? && built.panicked)
    && (outcome.GraphRejected? ==> visits == [])
    && (forall i :: 0 <= i < |visits| ==> Lists(c, visits[i]))
    && Orderly(c, ProjectsOf(visits))
    && (!outcome.GraphRejected? ==> built.panicked || ParentsFirst(c, ProjectsOf(visits)))
    && after == before.(batches := before.batches + [row], jobs := built.jobs, links := built.links)
  }

  // A conversion panics exactly when an impacted project with a job specification waits for one without.
  lemma ConversionPanics(projects: Digraph, impacted: set<Name>, marshalledJobs: set<Name>, row: BatchRow, before: Db,
                         outcome: Conversion, walks: seq<Collapse.Visit>, visits: seq<Visited>, after: Db)
    requires IsDag(projects) && Converts(projects, impacted, marshalledJobs, row, before, outcome, walks, visits, after)
    requires !outcome.GraphRejected?
    ensures var c := ContractionMeaning.Contraction(projects, impacted, walks);
            outcome == Panicked <==>
            exists v :: v in c.vertices && Dangles(JobCreation.Plan(c, marshalledJobs, |before.batches|), v)
  {
    var c := ContractionMeaning.Contraction(projects, impacted, walks);
    Collapse.ContractionOfAnyWalk(projects, impacted, walks);
    Collapse.OneParentInContraction(projects, impacted, c);
    OneJobPerProject(JobCreation.Plan(c, marshalledJobs, |before.batches|),
      Building(before.jobs, before.links, map[], false), visits);
  }

  // An impacted project with a job specification may come to wait for one without.
  ghost predicate MayDangle(projects: Digraph, impacted: set<Name>, marshalledJobs: set<Name>, v: Name, p: Name) {
    && v in impacted * projects.vertices && v in marshalledJobs && p !in marshalledJobs
    && Collapse.IsSource(projects, impacted, Some(p), v)
  }

  // Before the call: some iteration order makes the conversion panic if and only if some impacted project with a
  // job specification has a source without one.
  lemma ConversionMayPanicIff(projects: Digraph, impacted: set<Name>, marshalledJobs: set<Name>, row: BatchRow,
                              before: Db)
    requires IsDag(projects) && Traversal.DUMMY_PARENT !in impacted * projects.vertices
    ensures (exists walks, visits, after ::
               Converts(projects, impacted, marshalledJobs, row, before, Panicked, walks, visits, after)) <==>
            (exists v, p :: MayDangle(projects, impacted, marshalledJobs, v, p))
  {
    if v, p :| MayDangle(projects, impacted, marshalledJobs, v, p) {
      ContractionMeaning.ParentsAreSources(projects, impacted, v, Some(p));
      var walks :| Collapse.WalksAll(projects, walks) &&
        Collapse.HangsFrom(ContractionMeaning.Contraction(projects, impacted, walks), v, Some(p));
      var visits, after := DanglingPanics(projects, impacted, marshalledJobs, row, before, walks, v, p);
    }
    forall walks, visits, after |
      Converts(projects, impacted, marshalledJobs, row, before, Panicked, walks, visits, after)
      ensures exists v, p :: MayDangle(projects, impacted, marshalledJobs, v, p)
    {
      ConversionPanics(projects, impacted, marshalledJobs, row, before, Panicked, walks, visits, after);
      var c := ContractionMeaning.Contraction(projects, impacted, walks);
      var v :| v in c.vertices && Dangles(JobCreation.Plan(c, marshalledJobs, |before.batches|), v);
      DanglesFromSource(projects, impacted, marshalledJobs, walks, |before.batches|, v);
    }
  }

  lemma DanglingPanics(projects: Digraph, impacted: set<Name>, marshalledJobs: set<Name>, row: BatchRow, before: Db,
                       walks: seq<Collapse.Visit>, v: Name, p: Name)
    returns (visits: seq<Visited>, after: Db)
    requires IsDag(projects) && Collapse.WalksAll(projects, walks)
    requires Traversal.DUMMY_PARENT !in impacted * projects.vertices
    requires MayDangle(projects, impacted, marshalledJobs, v, p)
    requires Collapse.HangsFrom(ContractionMeaning.Contraction(projects, impacted, walks), v, Some(p))
    ensures Converts(projects, impacted, marshalledJobs, row, before, Panicked, walks, visits, after)
  {
    var c := ContractionMeaning.Contraction(projects, impacted, walks);
    var plan, base := JobCreation.Plan(c, marshalledJobs, |before.batches|),
                      Building(before.jobs, before.links, map[], false);
    Collapse.ContractionOfAnyWalk(projects, impacted, walks);
    Collapse.OneParentInContraction(projects, impacted, c);
    visits := VisitsExist(c);
    assert p in Predecessors(c.edges, v);
    assert Dangles(plan, v);
    OneJobPerProject(plan, base, visits);
    var built := AfterVisits(base, plan, visits);
    after := before.(batches := before.batches + [row], jobs := built.jobs, links := built.links);
  }

  lemma DanglesFromSource(projects: Digraph, impacted: set<Name>, marshalledJobs: set<Name>, walks: seq<Collapse.Visit>,
                          batch: nat, v: Name)
    requires IsDag(projects) && Collapse.WalksAll(projects, walks)
    requires var c := ContractionMeaning.Contraction(projects, impacted, walks);
             v in c.vertices && Dangles(JobCreation.Plan(c, marshalledJobs, batch), v)
    ensures exists p :: MayDangle(projects, impacted, marshalledJobs, v, p)
  {
    var c := ContractionMeaning.Contraction(projects, impacted, walks);
    Collapse.ContractionOfAnyWalk(projects, impacted, walks);
    var p :| p in Predecessors(c.edges, v) && p !in marshalledJobs;
    assert (p, v) in c.edges;
    Collapse.SourceIsAbove(projects, impacted, c, (p, v));
    assert MayDangle(projects, impacted, marshalledJobs, v, p);
  }

  // When every impacted project has a job specification, a conversion that is not rejected is a batch of the machine.
  lemma ConversionIsANewBatch(projects: Digraph, impacted: set<Name>, marshalledJobs: set<Name>, row: BatchRow,
                              s: State, limit: int,
                              outcome: Conversion, walks: seq<Collapse.Visit>, visits: seq<Visited>, after: Db)
    requires IsDag(projects) && Converts(projects, impacted, marshalledJobs, row, s.db, outcome, walks, visits, after)
    requires !outcome.GraphRejected? && impacted * projects.vertices <= marshalledJobs && row.status == BatchCreated
    ensures var a := NewBatch(row, ContractionMeaning.Contraction(projects, impacted, walks), visits);
            outcome == Converted && Enabled(s, a) && Next(limit, s, a).db == after
  {
    var c := ContractionMeaning.Contraction(projects, impacted, walks);
    var plan, base :=
      JobCreation.Plan(c, marshalledJobs, |s.db.batches|), Building(s.db.jobs, s.db.links, map[], false);
    Collapse.ContractionOfAnyWalk(projects, impacted, walks);
    Collapse.OneParentInContraction(projects, impacted, c);
    ConversionPanics(projects, impacted, marshalledJobs, row, s.db, outcome, walks, visits, after);
    forall v | v in c.vertices ensures !Dangles(plan, v) {
      forall p | p in Predecessors(c.edges, v) ensures p in plan.specs {
        assert (p, v) in c.edges;
      }
    }
    forall x | x in visits ensures x.project in marshalledJobs <==> x.project in c.vertices {
      var i :| 0 <= i < |visits| && visits[i] == x;
      assert ProjectsOf(visits)[i] in ProjectsOf(visits);
    }
    OutsideSpecsUnread(base, plan, c.vertices, visits);
  }

  class Database {
    var jobs: seq<JobRow>
    var links: seq<LinkRow>
    var batches: seq<BatchRow>
    var dispatched: seq<nat>
    var merged: seq<nat>

    constructor ()
      ensures Contents() == START.db
    {
      jobs, links, batches, dispatched, merged := [], [], [], [], [];
    }

    function Contents(): Db
      reads this
    {
      Db(jobs, links, batches, dispatched, merged)
    }

    /** Creates a batch, contracts the dependency graph to the impacted projects and creates their jobs. */
    method ConvertJobsToDiggerJobs(kind: BatchType, automerge: bool, marshalledJobs: set<Name>, impacted: set<Name>,
                                   projects: Digraph)
      returns (outcome: Conversion, b: nat, ghost walks: seq<Collapse.Visit>, ghost visits: seq<Visited>)
      requires IsDag(projects)
      modifies this
      ensures b == |old(batches)|
      ensures Converts(projects, impacted, marshalledJobs, BatchRow(kind, BatchCreated, automerge), old(Contents()),
        outcome, walks, visits, Contents())
    {
      b := |batches|;
      batches := batches + [BatchRow(kind, BatchCreated, automerge)];
      var err, g;
      err, g, walks := ImpactedGraph.ImpactedProjectsOnlyGraph(projects, impacted);
      var builder := new JobBuilder(JobCreation.Plan(g.Model(), marshalledJobs, b), jobs, links);
      err, visits := Traversal.TraverseGraphVisitAllParentsFirst(g, builder);
      jobs, links := builder.jobs, builder.links;
      outcome := if err.Some? then GraphRejected(err.value) else if builder.panicked then Panicked else Converted;
    }

    method GetDiggerJobsForBatchWithStatus(b: nat) returns (count: nat)
      ensures count == |ActiveJobs(jobs, b)|
      ensures count == |set i | 0 <= i < |jobs| && jobs[i].batch == b &&
        (jobs[i].status == Triggered || jobs[i].status == Started)|
    {
      count := 0;
      ghost var seen := {};
      for i := 0 to |jobs|
        invariant seen == (set k | 0 <= k < i && jobs[k].batch == b && Running(jobs[k].status)) && count == |seen|
      {
        if jobs[i].batch == b && Running(jobs[i].status) {
          seen := seen + {i};
          count := count + 1;
        }
      }
      assert seen == ActiveJobs(jobs, b);
      assert seen == set i | 0 <= i < |jobs| && jobs[i].batch == b &&
        (jobs[i].status == Triggered || jobs[i].status == Started);
    }

    method TriggerJob(j: nat)
      requires j < |jobs|
      modifies this
      ensures Contents() == AfterTrigger(old(Contents()), j)
      ensures OnlyJobChanged(old(Contents()), Contents(), j, Triggered) && dispatched == old(dispatched) + [j]
      ensures batches == old(batches) && merged == old(merged)
    {
      dispatched := dispatched + [j];
      jobs := jobs[j := jobs[j].(status := Triggered)];
    }

    method ScheduleJob(limit: int, b: nat, j: nat)
      requires j < |jobs|
      modifies this
      ensures Contents() == AfterSchedule(limit, old(Contents()), b, j)
      ensures var running := set i | 0 <= i < |old(jobs)| && old(jobs)[i].batch == b
                                     && (old(jobs)[i].status == Triggered || old(jobs)[i].status == Started);
              if limit == 0 || |running| < limit
              then OnlyJobChanged(old(Contents()), Contents(), j, Triggered) && dispatched == old(dispatched) + [j]
              else OnlyJobChanged(old(Contents()), Contents(), j, QueuedForRun) && dispatched == old(dispatched)
      ensures batches == old(batches) && merged == old(merged)
    {
      ScheduleMeans(limit, Contents(), b, j);
      if limit == 0 {
        TriggerJob(j);
      } else {
        var count := GetDiggerJobsForBatchWithStatus(b);
        if count >= limit {
          jobs := jobs[j := jobs[j].(status := QueuedForRun)];
        } else {
          TriggerJob(j);
        }
      }
    }

    // The left join keeps the jobs without a link row naming them as child.
    method GetPendingParentDiggerJobs(b: nat) returns (tasks: seq<Task>)
      ensures tasks == InitialTasks(Contents(), b, |jobs|)
      ensures forall t :: t in tasks <==>
                t.Initial? && t.job < |jobs| && jobs[t.job].batch == b && jobs[t.job].status == Created
                && forall k :: 0 <= k < |links| ==> links[k].child != t.job
      ensures forall i, k :: 0 <= i < k < |tasks| ==> tasks[i] != tasks[k]
    {
      InitialTasksMean(Contents(), b, |jobs|);
      tasks := [];
      for i := 0 to |jobs|
        invariant tasks == InitialTasks(Contents(), b, i)
      {
        var linked := false;
        for k := 0 to |links|
          invariant linked <==> exists m :: 0 <= m < k && links[m].child == i
        {
          if links[k].child == i {
            linked := true;
          }
        }
        if jobs[i].status == Created && jobs[i].batch == b && !linked {
          tasks := tasks + [Initial(i)];
        }
      }
    }

    /** The first dispatch of a batch. */
    method TriggerDiggerJobs(limit: int, b: nat)
      modifies this
      ensures Handles(old(Contents()), InitialTasks(old(Contents()), b, |old(jobs)|))
      ensures Contents() == AfterTasks(limit, old(Contents()), InitialTasks(old(Contents()), b, |old(jobs)|))
    {
      var tasks := GetPendingParentDiggerJobs(b);
      ghost var db := Contents();
      InitialTasksAreTokens(db, b, |jobs|);
      assert Handles(db, tasks);
      for i := 0 to |tasks|
        invariant Contents() == AfterTasks(limit, db, tasks[..i])
      {
        OneMoreTask(limit, db, tasks, i);
        ScheduleJob(limit, b, tasks[i].job);
      }
      assert tasks[..|tasks|] == tasks;
    }

    method ParentsComplete(c: nat) returns (allParentJobsAreComplete: bool)
      ensures allParentJobsAreComplete == AllParentsSucceeded(Contents(), c)
      ensures allParentJobsAreComplete <==>
              forall k :: 0 <= k < |links| && links[k].child == c ==>
                links[k].parent < |jobs| && jobs[links[k].parent].status == Succeeded
    {
      allParentJobsAreComplete := true;
      for k := 0 to |links|
        invariant forall m :: 0 <= m < k && links[m].child == c ==>
          links[m].parent < |jobs| && jobs[links[m].parent].status == Succeeded
      {
        if links[k].child == c {
          if links[k].parent >= |jobs| || jobs[links[k].parent].status != Succeeded {
            return false;
          }
        }
      }
    }

    method GetDiggerJobParentLinksByParentId(p: nat) returns (tasks: seq<Task>)
      ensures tasks == ChildTasks(links, p)
      ensures forall t :: t in tasks <==> t.Child? && t.parent == p && LinkRow(p, t.job) in links
    {
      ChildTasksMean(links, p);
      tasks := [];
      for k := 0 to |links|
        invariant tasks == ChildTasks(links[..k], p)
      {
        assert links[..k + 1][..k] == links[..k];
        if links[k].parent == p {
          tasks := tasks + [Child(p, links[k].child)];
        }
      }
      assert links[..|links|] == links;
    }

    /** After a success: schedules each child all of whose parents have succeeded. */
    method DiggerJobCompleted(limit: int, b: nat, parentJob: nat)
      requires parentJob < |jobs| && jobs[parentJob].batch == b
      requires forall k :: 0 <= k < |links| ==> links[k].child < |jobs|
      modifies this
      ensures Handles(old(Contents()), ChildTasks(old(links), parentJob))
      ensures Contents() == AfterTasks(limit, old(Contents()), ChildTasks(old(links), parentJob))
    {
      var tasks := GetDiggerJobParentLinksByParentId(parentJob);
      ghost var db := Contents();
      ChildTasksAreTokens(links, parentJob);
      assert Handles(db, tasks);
      for i := 0 to |tasks|
        invariant Contents() == AfterTasks(limit, db, tasks[..i])
      {
        OneMoreTask(limit, db, tasks, i);
        var allParentJobsAreComplete := ParentsComplete(tasks[i].job);
        if allParentJobsAreComplete {
          ScheduleJob(limit, b, tasks[i].job);
        }
      }
      assert tasks[..|tasks|] == tasks;
    }

    method GetDiggerJobsQueuedForRun() returns (tasks: seq<Task>)
      ensures tasks == RetryTasks(jobs, |jobs|)
      ensures forall t :: t in tasks <==> t.Retry? && t.job < |jobs| && jobs[t.job].status == QueuedForRun
      ensures forall i, k :: 0 <= i < k < |tasks| ==> tasks[i] != tasks[k]
    {
      RetryTasksMean(jobs, |jobs|);
      tasks := [];
      for i := 0 to |jobs|
        invariant tasks == RetryTasks(jobs, i)
      {
        if jobs[i].status == QueuedForRun {
          tasks := tasks + [Retry(i)];
        }
      }
    }

    /** The cron: tries every queued job once more. */
    method TriggerQueuedJobs(limit: int) returns (processedCount: nat)
      modifies this
      ensures Handles(old(Contents()), RetryTasks(old(jobs), |old(jobs)|))
      ensures Contents() == AfterTasks(limit, old(Contents()), RetryTasks(old(jobs), |old(jobs)|))
      ensures processedCount == |RetryTasks(old(jobs), |old(jobs)|)|
    {
      var tasks := GetDiggerJobsQueuedForRun();
      ghost var db := Contents();
      RetryTasksAreTokens(jobs, |jobs|);
      assert Handles(db, tasks);
      processedCount := 0;
      for i := 0 to |tasks|
        invariant Contents() == AfterTasks(limit, db, tasks[..i]) && processedCount == i
      {
        OneMoreTask(limit, db, tasks, i);
        ScheduleJob(limit, jobs[tasks[i].job].batch, tasks[i].job);
        processedCount := processedCount + 1;
      }
      assert tasks[..|tasks|] == tasks;
    }

    method UpdateBatchStatus(b: nat)
      requires b < |batches|
      modifies this
      ensures Contents() == AfterBatchUpdate(old(Contents()), b)
      ensures var was := old(batches)[b];
              var done := forall i ::
                0 <= i < |old(jobs)| && old(jobs)[i].batch == b ==> old(jobs)[i].status == Succeeded;
              batches == if was.status in {BatchCreated, BatchStarted} && done
                         then old(batches)[b := BatchRow(was.kind, BatchSucceeded, was.automerge)] else old(batches)
    {
      if IsTerminal(batches[b].status) {
        return;
      }
      var allJobsSucceeded := true;
      for i := 0 to |jobs|
        invariant allJobsSucceeded <==> forall k :: 0 <= k < i && jobs[k].batch == b ==> jobs[k].status == Succeeded
      {
        if jobs[i].batch == b && jobs[i].status != Succeeded {
          allJobsSucceeded := false;
        }
      }
      if allJobsSucceeded {
        batches := batches[b := batches[b].(status := BatchSucceeded)];
      }
    }

    method AutomergePRforBatchIfEnabled(b: nat, allApplied: bool)
      requires b < |batches|
      modifies this
      ensures Contents() == AfterAutomerge(old(Contents()), b, allApplied)
      ensures batches == old(batches) && jobs == old(jobs)
      ensures merged == if batches[b] == BatchRow(ApplyBatch, BatchSucceeded, true) && allApplied
                        then old(merged) + [b] else old(merged)
    {
      if batches[b].status == BatchSucceeded && batches[b].kind == ApplyBatch && allApplied && batches[b].automerge {
        merged := merged + [b];
      }
    }

    /** A worker's report; completes says whether the completion goroutine was started. */
    method SetJobStatusForProject(j: nat, request: RequestStatus, allApplied: bool) returns (ok: bool, completes: bool)
      requires j < |jobs| && jobs[j].batch < |batches|
      requires request.Known? ==> request.status != QueuedForRun
      modifies this
      ensures ok <==> request.Known?
      ensures completes <==> request == Known(Succeeded)
      ensures Contents() == match request
                            case Unexpected => old(Contents())
                            case Known(status) => AfterReport(old(Contents()), j, status, allApplied)
      ensures request.Known? ==> OnlyJobChanged(old(Contents()), Contents(), j, request.status)
      ensures request.Known? ==> dispatched == old(dispatched)
      ensures request.Known? ==>
                var b := old(jobs)[j].batch;
                var done := forall i :: 0 <= i < |jobs| && jobs[i].batch == b ==> jobs[i].status == Succeeded;
                && |batches| == |old(batches)|
                && batches[b] ==
                   old(batches)[b].(status := if old(batches)[b].status in {BatchCreated, BatchStarted} && done
                                                            then BatchSucceeded else old(batches)[b].status)
                && merged == if batches[b] == BatchRow(ApplyBatch, BatchSucceeded, true) && allApplied
                             then old(merged) + [b] else old(merged)
    {
      if request.Known? {
        ReportMeans(Contents(), j, request.status, allApplied);
      }
      if request == Unexpected {
        return false, false;
      }
      jobs := jobs[j := jobs[j].(status := request.status)];
      var b := jobs[j].batch;
      UpdateBatchStatus(b);
      AutomergePRforBatchIfEnabled(b, allApplied);
      return true, request.status == Succeeded;
    }
  }
}
