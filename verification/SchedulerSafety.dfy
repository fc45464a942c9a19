/** The invariant of the scheduler and its steps, as long as cron runs do not overlap. */
module SchedulerSafety {
  import opened Wrappers
  import opened Graphs
  import opened Tables
  import opened JobCreation
  import opened Scheduling
  import opened SchedulerMachine

  // The jobs and links of each batch mirror the graph it was built from.
  ghost predicate Mirrors(db: Db, plans: seq<Digraph>, j: nat)
    requires j < |db.jobs|
  {
    var row := db.jobs[j];
    && row.batch < |plans| && row.project in plans[row.batch].vertices
    && match ParentOf(db.links, j)
       case None => Predecessors(plans[row.batch].edges, row.project) == {}
       case Some(p) =>
         && p < j && db.jobs[p].batch == row.batch
         && Predecessors(plans[row.batch].edges, row.project) == {db.jobs[p].project}
  }

  ghost predicate HasJob(db: Db, b: nat, v: Name) {
    exists j :: 0 <= j < |db.jobs| && db.jobs[j].batch == b && db.jobs[j].project == v
  }

  ghost predicate PlansInv(s: State) {
    && |s.plans| == |s.db.batches|
    && (forall b :: 0 <= b < |s.plans| ==> IsDag(s.plans[b]) && OneParentEach(s.plans[b]))
    && (forall j :: 0 <= j < |s.db.jobs| ==> Mirrors(s.db, s.plans, j))
    && (forall i, j :: 0 <= i < j < |s.db.jobs| ==>
         s.db.jobs[i].batch != s.db.jobs[j].batch || s.db.jobs[i].project != s.db.jobs[j].project)
    && (forall b, v :: 0 <= b < |s.plans| && v in s.plans[b].vertices ==> HasJob(s.db, b, v))
  }

  // Each job is dispatched once, when it leaves the created and queued states.
  ghost predicate DispatchInv(db: Db) {
    && (forall i :: 0 <= i < |db.dispatched| ==> db.dispatched[i] < |db.jobs|)
    && (forall j :: 0 <= j < |db.jobs| ==> (j in db.dispatched <==> WasTriggered(db.jobs[j].status)))
    && (forall i, k :: 0 <= i < k < |db.dispatched| ==> db.dispatched[i] != db.dispatched[k])
  }

  ghost predicate LimitInv(limit: int, db: Db) {
    && (limit > 0 ==> forall b :: |ActiveJobs(db.jobs, b)| <= limit)
    && (limit < 0 ==> db.dispatched == [])
  }

  ghost predicate NonEmpty(jobs: seq<JobRow>, b: nat) {
    exists j :: 0 <= j < |jobs| && jobs[j].batch == b
  }

  // A batch is marked succeeded exactly while it has jobs and all of them succeeded, and only such a batch
  // of the apply kind with automerge on is merged, once.
  ghost predicate BatchInv(db: Db) {
    && (forall b :: 0 <= b < |db.batches| ==>
          db.batches[b].status == BatchCreated || db.batches[b].status == BatchSucceeded)
    && (forall b :: 0 <= b < |db.batches| ==>
          (db.batches[b].status == BatchSucceeded <==> NonEmpty(db.jobs, b) && AllSucceeded(db.jobs, b)))
    && (forall i :: 0 <= i < |db.merged| ==>
          db.merged[i] < |db.batches| && db.batches[db.merged[i]] == BatchRow(ApplyBatch, BatchSucceeded, true))
    && (forall i, k :: 0 <= i < k < |db.merged| ==> db.merged[i] != db.merged[k])
  }

  ghost predicate Inv(limit: int, s: State) {
    TokensInv(s) && PlansInv(s) && DispatchInv(s.db) && LimitInv(limit, s.db) && BatchInv(s.db)
  }

  // A new batch

  // What the conversion appends to the tables: a created job per vertex of the graph,
  ghost predicate JobsAppended(db: Db, graph: Digraph, jobs: seq<JobRow>) {
    && db.jobs <= jobs
    && (forall i :: |db.jobs| <= i < |jobs| ==>
         jobs[i].batch == |db.batches| && jobs[i].status == Created && jobs[i].project in graph.vertices)
    && (forall i, j :: |db.jobs| <= i < j < |jobs| ==> jobs[i].project != jobs[j].project)
  }

  ghost predicate VerticesAppended(db: Db, graph: Digraph, jobs: seq<JobRow>) {
    forall v :: v in graph.vertices ==> exists i :: |db.jobs| <= i < |jobs| && jobs[i].project == v
  }

  // links among the new jobs, parents first,
  ghost predicate LinksAppended(db: Db, jobs: seq<JobRow>, links: seq<LinkRow>) {
    && db.links <= links
    && (forall k :: |db.links| <= k < |links| ==> |db.jobs| <= links[k].parent < links[k].child < |jobs|)
    && DistinctChildren(links)
  }

  // and the parent of each new job is the job of its project's predecessor.
  ghost predicate ParentAppended(db: Db, graph: Digraph, jobs: seq<JobRow>, links: seq<LinkRow>, j: nat)
    requires j < |jobs|
  {
    match ParentOf(links, j)
    case None => Predecessors(graph.edges, jobs[j].project) == {}
    case Some(p) => |db.jobs| <= p < j && Predecessors(graph.edges, jobs[j].project) == {jobs[p].project}
  }

  ghost predicate Appends(db: Db, graph: Digraph, jobs: seq<JobRow>, links: seq<LinkRow>) {
    && JobsAppended(db, graph, jobs) && VerticesAppended(db, graph, jobs) && LinksAppended(db, jobs, links)
    && forall j {:trigger ParentAppended(db, graph, jobs, links, j)} ::
       |db.jobs| <= j < |jobs| ==> ParentAppended(db, graph, jobs, links, j)
  }

  lemma ConversionAppends(s: State, graph: Digraph, visits: seq<Visited>)
    requires WellLinked(s.db) && IsDag(graph) && OneParentEach(graph) && ParentsFirst(graph, ProjectsOf(visits))
    requires forall i :: 0 <= i < |visits| ==> Lists(graph, visits[i])
    ensures Appends(s.db, graph, BuiltFrom(s, graph, visits).jobs, BuiltFrom(s, graph, visits).links)
  {
    var plan := JobCreation.Plan(graph, graph.vertices, |s.db.batches|);
    var base := Building(s.db.jobs, s.db.links, map[], false);
    var t := AfterVisits(base, plan, visits);
    OneJobPerProject(plan, base, visits);
    forall v | v in graph.vertices ensures !Dangles(plan, v) {
      forall p | p in Predecessors(graph.edges, v) ensures p in plan.specs {
        assert (p, v) in graph.edges;
      }
    }
    BuiltJobsAppended(s.db, plan, base, t);
    BuiltLinksAppended(s.db, plan, base, t);
    forall j | |s.db.jobs| <= j < |t.jobs| ensures ParentAppended(s.db, graph, t.jobs, t.links, j) {
      BuiltParentAppended(s.db, plan, base, t, j);
    }
  }

  lemma BuiltJobsAppended(db: Db, plan: JobCreation.Plan, base: Building, t: Building)
    requires plan == JobCreation.Plan(plan.graph, plan.graph.vertices, |db.batches|)
    requires base == Building(db.jobs, db.links, map[], false)
    requires JobsMatch(plan, base, t, plan.graph.vertices)
    ensures JobsAppended(db, plan.graph, t.jobs) && VerticesAppended(db, plan.graph, t.jobs)
  {
    forall v | v in plan.graph.vertices ensures exists i :: |db.jobs| <= i < |t.jobs| && t.jobs[i].project == v {
      assert v in t.result;
      assert t.jobs[t.result[v]].project == v;
    }
  }

  lemma BuiltLinksAppended(db: Db, plan: JobCreation.Plan, base: Building, t: Building)
    requires WellLinked(db) && base == Building(db.jobs, db.links, map[], false)
    requires JobsMatch(plan, base, t, plan.graph.vertices) && LinksMatch(plan, base, t)
    ensures LinksAppended(db, t.jobs, t.links)
  {
    var m := |db.links|;
    forall k | m <= k < |t.links| ensures |db.jobs| <= t.links[k].parent < t.links[k].child < |t.jobs| {
      assert IsLinkOf(plan, t, t.links[k]);
    }
    forall k, l | 0 <= k < l < |t.links| ensures t.links[k].child != t.links[l].child {
      assert k < m ==> t.links[k] == db.links[k] && t.links[k].child < |db.jobs|;
      assert l < m ==> t.links[l] == db.links[l];
    }
  }

  lemma BuiltParentAppended(db: Db, plan: JobCreation.Plan, base: Building, t: Building, j: nat)
    requires WellLinked(db) && OneParentEach(plan.graph) && base == Building(db.jobs, db.links, map[], false)
    requires JobsMatch(plan, base, t, plan.graph.vertices) && LinksMatch(plan, base, t) &&
      LinksAppended(db, t.jobs, t.links)
    requires |db.jobs| <= j < |t.jobs|
    ensures ParentAppended(db, plan.graph, t.jobs, t.links, j)
  {
    var graph, m, v := plan.graph, |db.links|, t.jobs[j].project;
    ParentOfLink(t.links, j);
    assert v in t.result && t.result[v] == j;
    match ParentOf(t.links, j)
    case Some(p) =>
      var k :| 0 <= k < |t.links| && t.links[k] == LinkRow(p, j);
      assert k >= m;
      assert IsLinkOf(plan, t, t.links[k]);
      var e :| e in graph.edges && e.0 in t.result && e.1 in t.result &&
        t.links[k] == LinkRow(t.result[e.0], t.result[e.1]) && t.links[k].parent < t.links[k].child;
      assert e.1 == v && t.jobs[p].project == e.0;
      OnlyPredecessor(graph, e.0, v);
    case None =>
      forall q ensures q !in Predecessors(graph.edges, v) {
        assert (q, v) !in graph.edges;
      }
  }

  lemma OnlyPredecessor(g: Digraph, p: Name, v: Name)
    requires OneParentEach(g) && (p, v) in g.edges
    ensures Predecessors(g.edges, v) == {p}
  {
    forall q ensures q in Predecessors(g.edges, v) <==> q == p {
      assert q in Predecessors(g.edges, v) <==> (q, v) in g.edges;
    }
  }

  lemma OldParentsKept(db: Db, jobs: seq<JobRow>, links: seq<LinkRow>, j: nat)
    requires LinksAppended(db, jobs, links) && j < |db.jobs|
    ensures ParentOf(links, j) == ParentOf(db.links, j)
  {
    assert links == db.links + links[|db.links|..];
    ParentOfKept(db.links, links[|db.links|..], j);
  }

  ghost function WithBatch(s: State, row: BatchRow, graph: Digraph, jobs: seq<JobRow>, links: seq<LinkRow>): State {
    State(s.db.(jobs := jobs, links := links, batches := s.db.batches + [row]),
      s.todo + multiset{Dispatch(|s.db.batches|)}, s.plans + [graph])
  }

  lemma NewBatchWellLinked(db: Db, row: BatchRow, graph: Digraph, jobs: seq<JobRow>, links: seq<LinkRow>)
    requires WellLinked(db) && JobsAppended(db, graph, jobs) && LinksAppended(db, jobs, links)
    ensures WellLinked(db.(jobs := jobs, links := links, batches := db.batches + [row]))
  {
    forall j | 0 <= j < |db.jobs| ensures jobs[j] == db.jobs[j] {}
    forall k | 0 <= k < |links|
      ensures links[k].parent < links[k].child < |jobs|
      ensures jobs[links[k].parent].batch == jobs[links[k].child].batch
    {
      assert k < |db.links| ==> links[k] == db.links[k];
    }
  }

  lemma NewBatchKeepsTokens(s: State, row: BatchRow, graph: Digraph, jobs: seq<JobRow>, links: seq<LinkRow>)
    requires TokensInv(s) && JobsAppended(s.db, graph, jobs) && LinksAppended(s.db, jobs, links)
    requires forall j {:trigger ParentAppended(s.db, graph, jobs, links, j)} ::
      |s.db.jobs| <= j < |jobs| ==> ParentAppended(s.db, graph, jobs, links, j)
    ensures TokensInv(WithBatch(s, row, graph, jobs, links))
  {
    var b, s' := |s.db.batches|, WithBatch(s, row, graph, jobs, links);
    NewBatchWellLinked(s.db, row, graph, jobs, links);
    assert Dispatch(b) !in s.todo by {
      assert Dispatch(b) in s.todo ==> Fits(s, Dispatch(b));
    }
    forall t | t in s'.todo ensures Fits(s', t) {
      if t in s.todo {
        assert Fits(s, t);
        if t.Initial? || t.Child? {
          OldParentsKept(s.db, jobs, links, t.job);
        }
      } else {
        assert t == Dispatch(b);
      }
    }
    forall j | 0 <= j < |jobs| ensures Owned(s', j) {
      if j < |s.db.jobs| {
        assert jobs[j] == s.db.jobs[j] && Owned(s, j);
        OldParentsKept(s.db, jobs, links, j);
      } else {
        assert ParentAppended(s.db, graph, jobs, links, j);
        NothingForNewJobs(s, j);
      }
    }
    forall c ensures s'.todo[Dispatch(c)] <= 1 {
      assert s.todo[Dispatch(c)] <= 1;
    }
  }

  lemma NothingForNewJobs(s: State, j: nat)
    requires TokensInv(s) && j >= |s.db.jobs|
    ensures s.todo[Initial(j)] == s.todo[Retry(j)] == s.todo[Complete(j)] == 0
    ensures forall p :: s.todo[Child(p, j)] == 0
  {
    forall t | t in s.todo ensures t != Initial(j) && t != Retry(j) && t != Complete(j) && !(t.Child? && t.job == j) {
      assert Fits(s, t);
    }
  }

  lemma NewBatchKeepsPlans(s: State, row: BatchRow, graph: Digraph, jobs: seq<JobRow>, links: seq<LinkRow>)
    requires WellLinked(s.db) && PlansInv(s) && IsDag(graph) && OneParentEach(graph) &&
      Appends(s.db, graph, jobs, links)
    ensures PlansInv(WithBatch(s, row, graph, jobs, links))
  {
    var n, s' := |s.db.jobs|, WithBatch(s, row, graph, jobs, links);
    forall j | 0 <= j < |jobs| ensures Mirrors(s'.db, s'.plans, j) {
      if j < n {
        assert jobs[j] == s.db.jobs[j] && Mirrors(s.db, s.plans, j);
        OldParentsKept(s.db, jobs, links, j);
      } else {
        assert ParentAppended(s.db, graph, jobs, links, j);
      }
    }
    forall i, j | 0 <= i < j < |jobs| ensures jobs[i].batch != jobs[j].batch || jobs[i].project != jobs[j].project {
      assert i < n ==> jobs[i] == s.db.jobs[i];
      assert j < n ==> jobs[j] == s.db.jobs[j];
    }
    forall b, v | 0 <= b < |s'.plans| && v in s'.plans[b].vertices ensures HasJob(s'.db, b, v) {
      if b < |s.plans| {
        assert HasJob(s.db, b, v);
        var j :| 0 <= j < n && s.db.jobs[j].batch == b && s.db.jobs[j].project == v;
        assert jobs[j] == s.db.jobs[j];
      } else {
        var i :| n <= i < |jobs| && jobs[i].project == v;
      }
    }
  }

  lemma NewBatchKeepsRest(limit: int, db: Db, row: BatchRow, graph: Digraph, jobs: seq<JobRow>, links: seq<LinkRow>)
    requires WellLinked(db) && DispatchInv(db) && LimitInv(limit, db) && BatchInv(db)
    requires JobsAppended(db, graph, jobs) && row.status == BatchCreated
    ensures var db' := db.(jobs := jobs, links := links, batches := db.batches + [row]);
            DispatchInv(db') && LimitInv(limit, db') && BatchInv(db')
  {
    var n := |db.jobs|;
    var db' := db.(jobs := jobs, links := links, batches := db.batches + [row]);
    forall j | 0 <= j < n ensures jobs[j] == db.jobs[j] {}
    forall b ensures ActiveJobs(jobs, b) == ActiveJobs(db.jobs, b) {}
    forall b | 0 <= b < |db'.batches|
      ensures db'.batches[b].status == BatchSucceeded <==> NonEmpty(jobs, b) && AllSucceeded(jobs, b)
    {
      if b < |db.batches| {
        forall i | n <= i < |jobs| ensures jobs[i].batch != b {}
        assert AllSucceeded(jobs, b) == AllSucceeded(db.jobs, b);
        assert NonEmpty(jobs, b) == NonEmpty(db.jobs, b) by {
          if NonEmpty(db.jobs, b) {
            var j :| 0 <= j < n && db.jobs[j].batch == b;
            assert jobs[j].batch == b;
          }
        }
      } else if NonEmpty(jobs, b) {
        var j :| 0 <= j < |jobs| && jobs[j].batch == b;
        assert j >= n && jobs[j].status == Created;
      }
    }
  }

  // Status changes

  lemma StatusKeepsPlans(s: State, j: nat, status: JobStatus, db: Db)
    requires PlansInv(s) && j < |s.db.jobs|
    requires db.jobs == WithStatus(s.db, j, status).jobs && db.links == s.db.links && |db.batches| == |s.db.batches|
    ensures forall todo :: PlansInv(State(db, todo, s.plans))
  {
    forall i | 0 <= i < |db.jobs|
      ensures db.jobs[i].batch == s.db.jobs[i].batch && db.jobs[i].project == s.db.jobs[i].project {}
    forall i | 0 <= i < |db.jobs| ensures Mirrors(db, s.plans, i) {
      assert Mirrors(s.db, s.plans, i);
    }
    forall b, v | 0 <= b < |s.plans| && v in s.plans[b].vertices ensures HasJob(db, b, v) {
      assert HasJob(s.db, b, v);
      var i :| 0 <= i < |s.db.jobs| && s.db.jobs[i].batch == b && s.db.jobs[i].project == v;
      assert db.jobs[i].batch == b;
    }
  }

  // A job that is not succeeded and does not become so leaves every batch's verdict alone.
  lemma UnfinishedKeepsBatches(db: Db, j: nat, status: JobStatus)
    requires BatchInv(db) && j < |db.jobs| && db.jobs[j].status != Succeeded && status != Succeeded
    ensures BatchInv(WithStatus(db, j, status))
  {
    var db' := WithStatus(db, j, status);
    forall b | 0 <= b < |db.batches|
      ensures NonEmpty(db'.jobs, b) == NonEmpty(db.jobs, b) && AllSucceeded(db'.jobs, b) == AllSucceeded(db.jobs, b)
    {
      SameBatchRows(db, j, status, b);
      if db.jobs[j].batch == b {
        assert db'.jobs[j].batch == b && db'.jobs[j].status == status;
      } else {
        OtherBatchVerdict(db, j, status, b);
      }
    }
  }

  lemma SameBatchRows(db: Db, j: nat, status: JobStatus, b: nat)
    requires j < |db.jobs|
    ensures NonEmpty(WithStatus(db, j, status).jobs, b) == NonEmpty(db.jobs, b)
  {
    var jobs := WithStatus(db, j, status).jobs;
    if NonEmpty(db.jobs, b) {
      var i :| 0 <= i < |db.jobs| && db.jobs[i].batch == b;
      assert jobs[i].batch == b;
    }
    if NonEmpty(jobs, b) {
      var i :| 0 <= i < |jobs| && jobs[i].batch == b;
      assert db.jobs[i].batch == b;
    }
  }

  lemma OtherBatchVerdict(db: Db, j: nat, status: JobStatus, b: nat)
    requires j < |db.jobs| && db.jobs[j].batch != b
    ensures AllSucceeded(WithStatus(db, j, status).jobs, b) == AllSucceeded(db.jobs, b)
  {
    var jobs := WithStatus(db, j, status).jobs;
    forall i | 0 <= i < |jobs| && jobs[i].batch == b ensures jobs[i] == db.jobs[i] {}
    forall i | 0 <= i < |jobs| && db.jobs[i].batch == b ensures jobs[i] == db.jobs[i] {}
  }

  lemma ScheduleKeepsRest(limit: int, db: Db, j: nat)
    requires DispatchInv(db) && LimitInv(limit, db) && BatchInv(db)
    requires j < |db.jobs| && (db.jobs[j].status == Created || db.jobs[j].status == QueuedForRun)
    ensures var db' := AfterSchedule(limit, db, db.jobs[j].batch, j);
            DispatchInv(db') && LimitInv(limit, db') && BatchInv(db')
  {
    var b := db.jobs[j].batch;
    var queued := limit != 0 && |ActiveJobs(db.jobs, b)| >= limit;
    var status := if queued then QueuedForRun else Triggered;
    UnfinishedKeepsBatches(db, j, status);
    var jobs := WithStatus(db, j, status).jobs;
    forall c ensures |ActiveJobs(jobs, c)| <= |ActiveJobs(db.jobs, c)| + if c == b && !queued then 1 else 0 {
      ActiveAfter(db, j, status, c);
    }
    if !queued {
      assert j !in db.dispatched;
    }
  }

  lemma ReportKeepsRest(limit: int, db: Db, j: nat, status: JobStatus, allApplied: bool)
    requires WellLinked(db) && DispatchInv(db) && LimitInv(limit, db) && BatchInv(db)
    requires j < |db.jobs| && Running(db.jobs[j].status)
    requires status == Started || status == Succeeded || status == Failed
    ensures var db' := AfterReport(db, j, status, allApplied);
            DispatchInv(db') && LimitInv(limit, db') && BatchInv(db')
  {
    forall c ensures |ActiveJobs(WithStatus(db, j, status).jobs, c)| <= |ActiveJobs(db.jobs, c)| {
      ActiveAfter(db, j, status, c);
    }
    ReportKeepsBatches(db, j, status, allApplied);
  }

  lemma ReportKeepsBatches(db: Db, j: nat, status: JobStatus, allApplied: bool)
    requires WellLinked(db) && BatchInv(db)
    requires j < |db.jobs| && Running(db.jobs[j].status)
    ensures BatchInv(AfterReport(db, j, status, allApplied))
  {
    var b, db1 := db.jobs[j].batch, WithStatus(db, j, status);
    var db' := AfterReport(db, j, status, allApplied);
    assert !AllSucceeded(db.jobs, b);
    assert db.batches[b].status == BatchCreated;
    forall c | 0 <= c < |db.batches|
      ensures db'.batches[c].status == BatchSucceeded <==> NonEmpty(db'.jobs, c) && AllSucceeded(db'.jobs, c)
    {
      SameBatchRows(db, j, status, c);
      if c == b {
        assert db1.jobs[j].batch == b;
        assert NonEmpty(db1.jobs, b);
      } else {
        OtherBatchVerdict(db, j, status, c);
      }
    }
  }

  // Every step keeps the invariant, if cron runs do not overlap

  lemma StepKeepsInv(limit: int, s: State, a: Action)
    requires Inv(limit, s) && Enabled(s, a) && (a.StartCron? ==> NoRetry(s))
    ensures Inv(limit, Next(limit, s, a))
  {
    match a
    case NewBatch(row, graph, visits) =>
      var built := BuiltFrom(s, graph, visits);
      ConversionAppends(s, graph, visits);
      NewBatchKeepsTokens(s, row, graph, built.jobs, built.links);
      NewBatchKeepsPlans(s, row, graph, built.jobs, built.links);
      NewBatchKeepsRest(limit, s.db, row, graph, built.jobs, built.links);
    case Perform(task) =>
      PerformKeepsInv(limit, s, task);
    case StartCron =>
      CronKeepsTokens(s);
    case Report(j, status, allApplied) =>
      ReportKeepsTokens(s, j, status);
      ReportTokensDb(s, j, status, allApplied);
      StatusKeepsPlans(s, j, status, AfterReport(s.db, j, status, allApplied));
      ReportKeepsRest(limit, s.db, j, status, allApplied);
  }

  // The tokens do not look at batch rows.
  lemma ReportTokensDb(s: State, j: nat, status: JobStatus, allApplied: bool)
    requires j < |s.db.jobs| && s.db.jobs[j].batch < |s.db.batches|
    ensures forall todo :: TokensInv(State(WithStatus(s.db, j, status), todo, s.plans)) ==>
                             TokensInv(State(AfterReport(s.db, j, status, allApplied), todo, s.plans))
  {
    var db1, db2 := WithStatus(s.db, j, status), AfterReport(s.db, j, status, allApplied);
    forall todo | TokensInv(State(db1, todo, s.plans)) ensures TokensInv(State(db2, todo, s.plans)) {
      var s1, s2 := State(db1, todo, s.plans), State(db2, todo, s.plans);
      forall t | t in todo ensures Fits(s2, t) {
        assert Fits(s1, t);
      }
      forall i | 0 <= i < |db2.jobs| ensures Owned(s2, i) {
        assert Owned(s1, i);
      }
    }
  }

  // The job a scheduling task is for, its turn having come.
  lemma TaskIsDue(s: State, task: Task, j: nat)
    requires TokensInv(s) && task in s.todo && j < |s.db.jobs|
    requires task == Initial(j) || task == Retry(j) || (task.Child? && task.job == j)
    ensures s.db.jobs[j].status == if task.Retry? then QueuedForRun else Created
    ensures task.Initial? ==> ParentOf(s.db.links, j) == None
    ensures task.Child? ==> ParentOf(s.db.links, j) == Some(task.parent) && task.parent < |s.db.jobs|
                            && s.db.jobs[task.parent].status == Succeeded
                            && s.db.jobs[task.parent].batch == s.db.jobs[j].batch
                            && AllParentsSucceeded(s.db, j)
  {
    assert Fits(s, task) && Owned(s, j);
    ParentOfLink(s.db.links, j);
  }

  lemma PerformKeepsInv(limit: int, s: State, task: Task)
    requires Inv(limit, s) && Enabled(s, Perform(task))
    ensures Inv(limit, Next(limit, s, Perform(task)))
  {
    match task
    case Dispatch(b) => DispatchKeepsTokens(s, b);
    case Complete(p) => CompletionKeepsTokens(s, p);
    case _ => ScheduleKeepsInv(limit, s, task);
  }

  lemma ScheduleKeepsInv(limit: int, s: State, task: Task)
    requires Inv(limit, s) && Enabled(s, Perform(task)) && !task.Dispatch? && !task.Complete?
    ensures Inv(limit, Next(limit, s, Perform(task)))
  {
    var j := task.job;
    TaskIsDue(s, task, j);
    var db' := AfterSchedule(limit, s.db, s.db.jobs[j].batch, j);
    var s' := Next(limit, s, Perform(task));
    assert s'.db == db';
    var status := db'.jobs[j].status;
    ScheduleKeepsTokens(s, task, j, status);
    ScheduleTokensDb(limit, s, j);
    StatusKeepsPlans(s, j, status, db');
    ScheduleKeepsRest(limit, s.db, j);
  }

  lemma ScheduleTokensDb(limit: int, s: State, j: nat)
    requires j < |s.db.jobs|
    ensures var db' := AfterSchedule(limit, s.db, s.db.jobs[j].batch, j);
            && db'.(dispatched := s.db.dispatched) == WithStatus(s.db, j, db'.jobs[j].status)
            && forall todo :: TokensInv(State(db'.(dispatched := s.db.dispatched), todo, s.plans)) ==>
               TokensInv(State(db', todo, s.plans))
  {
    var db' := AfterSchedule(limit, s.db, s.db.jobs[j].batch, j);
    var db1 := db'.(dispatched := s.db.dispatched);
    forall todo | TokensInv(State(db1, todo, s.plans)) ensures TokensInv(State(db', todo, s.plans)) {
      var s1, s2 := State(db1, todo, s.plans), State(db', todo, s.plans);
      forall t | t in todo ensures Fits(s2, t) {
        assert Fits(s1, t);
      }
      forall i | 0 <= i < |db'.jobs| ensures Owned(s2, i) {
        assert Owned(s1, i);
      }
    }
  }

  lemma {:induction false} ContinuationKeepsInv(limit: int, states: seq<State>, actions: seq<Action>, i: nat)
    requires Continues(limit, states, actions) && NoOverlap(states, actions) && Inv(limit, states[0]) && i < |states|
    ensures Inv(limit, states[i])
    decreases i
  {
    if i > 0 {
      ContinuationKeepsInv(limit, states, actions, i - 1);
      var a := actions[i - 1];
      StepKeepsInv(limit, states[i - 1], a);
      assert states[i - 1 + 1] == Next(limit, states[i - 1], a);
    }
  }

  lemma RunKeepsInv(limit: int, states: seq<State>, actions: seq<Action>, i: nat)
    requires IsRun(limit, states, actions) && NoOverlap(states, actions) && i < |states|
    ensures Inv(limit, states[i])
  {
    forall b ensures ActiveJobs(START.db.jobs, b) == {} {}
    ContinuationKeepsInv(limit, states, actions, i);
  }
}
