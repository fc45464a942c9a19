/**
 The scheduler as a state machine over the tables and the activities under way: a new batch to
 dispatch, the loop over its parentless jobs, the goroutine of a completed job, its loop over
 child jobs, and the cron's loop over queued jobs. Loops interleave between any two jobs they
 handle; one call of ScheduleJob or one worker report is one step.
 */
module SchedulerMachine {
  import opened Wrappers
  import opened Graphs
  import opened Tables
  import opened JobCreation
  import opened Scheduling

  datatype Task =
    | Dispatch(batch: nat)              // TriggerDiggerJobs is about to query the batch
    | Initial(job: nat)                 // a job of that query, not yet scheduled
    | Complete(job: nat)                // the goroutine of a success report, not yet run
    | Child(parent: nat, job: nat)      // a child of the completed job, not yet handled
    | Retry(job: nat)                   // a queued job the cron fetched, not yet scheduled

  // plans: the graph each batch was built from.
  datatype State = State(db: Db, todo: multiset<Task>, plans: seq<Digraph>)

  datatype Action =
    | NewBatch(row: BatchRow, graph: Digraph, visits: seq<Visited>)
    | Perform(task: Task)
    | StartCron
    | Report(job: nat, status: JobStatus, allApplied: bool)

  const START := State(Db([], [], [], [], []), multiset{}, [])

  function InitialTokens(db: Db, b: nat, n: nat): multiset<Task>
    requires n <= |db.jobs|
  {
    if n == 0 then multiset{}
    else InitialTokens(db, b, n - 1) + if IsPendingParent(db, b, n - 1) then multiset{Initial(n - 1)} else multiset{}
  }

  function ChildTokens(links: seq<LinkRow>, p: nat): multiset<Task> {
    if links == [] then multiset{}
    else
      var last := links[|links| - 1];
      ChildTokens(links[..|links| - 1], p) + if last.parent == p then multiset{Child(p, last.child)} else multiset{}
  }

  function RetryTokens(jobs: seq<JobRow>, n: nat): multiset<Task>
    requires n <= |jobs|
  {
    if n == 0 then multiset{}
    else RetryTokens(jobs, n - 1) + if jobs[n - 1].status == QueuedForRun then multiset{Retry(n - 1)} else multiset{}
  }

  // Ids in tasks and rows point at rows.
  ghost predicate InRange(s: State, task: Task) {
    match task
    case Dispatch(b) => b < |s.db.batches|
    case Initial(j) => j < |s.db.jobs|
    case Complete(j) => j < |s.db.jobs|
    case Child(p, j) => p < |s.db.jobs| && j < |s.db.jobs|
    case Retry(j) => j < |s.db.jobs|
  }

  // What the environment and the code allow: batches come from contractions, a cron run may start at any time,
  // even before the last one has handled all its jobs, and a worker reports a start at most once and then one result.
  ghost predicate Enabled(s: State, a: Action) {
    match a
    case NewBatch(row, graph, visits) =>
      && row.status == BatchCreated
      && IsDag(graph) && OneParentEach(graph)
      && ParentsFirst(graph, ProjectsOf(visits))
      && forall i :: 0 <= i < |visits| ==> Lists(graph, visits[i])
    case Perform(task) => task in s.todo && InRange(s, task)
    case StartCron => true
    case Report(j, status, _) =>
      && j < |s.db.jobs| && s.db.jobs[j].batch < |s.db.batches|
      && match s.db.jobs[j].status
         case Triggered => status == Started || status == Succeeded || status == Failed
         case Started => status == Succeeded || status == Failed
         case _ => false
  }

  function BuiltFrom(s: State, graph: Digraph, visits: seq<Visited>): Building {
    var plan := JobCreation.Plan(graph, graph.vertices, |s.db.batches|);
    AfterVisits(Building(s.db.jobs, s.db.links, map[], false), plan, visits)
  }

  ghost function Next(limit: int, s: State, a: Action): State
    requires Enabled(s, a)
  {
    match a
    case NewBatch(row, graph, visits) =>
      var built := BuiltFrom(s, graph, visits);
      State(s.db.(jobs := built.jobs, links := built.links, batches := s.db.batches + [row]),
            s.todo + multiset{Dispatch(|s.db.batches|)},
            s.plans + [graph])
    case Perform(task) =>
      var rest := s.todo - multiset{task};
      (match task
       case Dispatch(b) => s.(todo := rest + InitialTokens(s.db, b, |s.db.jobs|))
       case Complete(p) => s.(todo := rest + ChildTokens(s.db.links, p))
       case Initial(j) => s.(todo := rest, db := AfterSchedule(limit, s.db, s.db.jobs[j].batch, j))
       case Child(p, j) => s.(todo := rest, db := AfterChild(limit, s.db, s.db.jobs[p].batch, j))
       case Retry(j) => s.(todo := rest, db := AfterSchedule(limit, s.db, s.db.jobs[j].batch, j)))
    case StartCron => s.(todo := s.todo + RetryTokens(s.db.jobs, |s.db.jobs|))
    case Report(j, status, allApplied) =>
      s.(db := AfterReport(s.db, j, status, allApplied),
         todo := if status == Succeeded then s.todo + multiset{Complete(j)} else s.todo)
  }

  ghost predicate Continues(limit: int, states: seq<State>, actions: seq<Action>) {
    && |states| == |actions| + 1
    && forall i {:trigger actions[i]} :: 0 <= i < |actions| ==>
      Enabled(states[i], actions[i]) && states[i + 1] == Next(limit, states[i], actions[i])
  }

  ghost predicate IsRun(limit: int, states: seq<State>, actions: seq<Action>) {
    Continues(limit, states, actions) && states[0] == START
  }

  // No cron run holds jobs that it has fetched and not yet handled.
  ghost predicate NoRetry(s: State) {
    forall t :: t in s.todo ==> !t.Retry?
  }

  // Each cron run handles all its jobs before the next one starts.
  ghost predicate NoOverlap(states: seq<State>, actions: seq<Action>)
    requires |states| == |actions| + 1
  {
    forall i {:trigger actions[i]} :: 0 <= i < |actions| && actions[i].StartCron? ==> NoRetry(states[i])
  }

  // The invariant

  ghost predicate WellLinked(db: Db) {
    && (forall j :: 0 <= j < |db.jobs| ==> db.jobs[j].batch < |db.batches|)
    && (forall k :: 0 <= k < |db.links| ==>
          db.links[k].parent < db.links[k].child < |db.jobs|
          && db.jobs[db.links[k].parent].batch == db.jobs[db.links[k].child].batch)
    && DistinctChildren(db.links)
  }

  ghost predicate Fits(s: State, task: Task) {
    && InRange(s, task)
    && (task.Initial? ==> ParentOf(s.db.links, task.job) == None)
    && (task.Child? ==> ParentOf(s.db.links, task.job) == Some(task.parent))
  }

  // Exactly one outstanding activity will schedule a created job whose turn has come, and none any other job.
  ghost predicate Owned(s: State, j: nat)
    requires j < |s.db.jobs|
  {
    var status := s.db.jobs[j].status;
    && s.todo[Retry(j)] <= (if status == QueuedForRun then 1 else 0)
    && s.todo[Complete(j)] <= (if status == Succeeded then 1 else 0)
    && match ParentOf(s.db.links, j)
       case None => s.todo[Dispatch(s.db.jobs[j].batch)] + s.todo[Initial(j)] == if status == Created then 1 else 0
       case Some(p) =>
         p < |s.db.jobs|
         && if s.db.jobs[p].status != Succeeded then status == Created && s.todo[Child(p, j)] == 0
            else s.todo[Complete(p)] + s.todo[Child(p, j)] == if status == Created then 1 else 0
  }

  ghost predicate TokensInv(s: State) {
    && WellLinked(s.db)
    && (forall t :: t in s.todo ==> Fits(s, t))
    && (forall j :: 0 <= j < |s.db.jobs| ==> Owned(s, j))
    && (forall b :: s.todo[Dispatch(b)] <= 1)
  }

  // Counting tokens

  lemma {:induction false} InitialTokensCount(db: Db, b: nat, n: nat, t: Task)
    requires n <= |db.jobs|
    ensures InitialTokens(db, b, n)[t] == if t.Initial? && t.job < n && IsPendingParent(db, b, t.job) then 1 else 0
    decreases n
  {
    if n > 0 {
      InitialTokensCount(db, b, n - 1, t);
    }
  }

  lemma {:induction false} ChildTokensCount(links: seq<LinkRow>, p: nat, t: Task)
    requires DistinctChildren(links)
    ensures ChildTokens(links, p)[t] == if t.Child? && t.parent == p && ParentOf(links, t.job) == Some(p) then 1 else 0
    decreases |links|
  {
    if links != [] {
      var init, last := links[..|links| - 1], links[|links| - 1];
      ChildTokensCount(init, p, t);
      if t == Child(last.parent, last.child) || (t.Child? && t.job == last.child) {
        ParentOfLink(init, last.child);
      }
    }
  }

  lemma {:induction false} RetryTokensCount(jobs: seq<JobRow>, n: nat, t: Task)
    requires n <= |jobs|
    ensures RetryTokens(jobs, n)[t] == if t.Retry? && t.job < n && jobs[t.job].status == QueuedForRun then 1 else 0
    decreases n
  {
    if n > 0 {
      RetryTokensCount(jobs, n - 1, t);
    }
  }

  lemma PendingHasNoParent(db: Db, b: nat, j: nat)
    requires j < |db.jobs| && DistinctChildren(db.links)
    ensures IsPendingParent(db, b, j) <==>
      db.jobs[j].status == Created && db.jobs[j].batch == b && ParentOf(db.links, j) == None
  {
    ParentOfLink(db.links, j);
  }

  // Steps keep the tokens right

  lemma ScheduleKeepsTokens(s: State, t: Task, j: nat, status: JobStatus)
    requires TokensInv(s) && t in s.todo && j < |s.db.jobs|
    requires t == Initial(j) || t == Retry(j) || (t.Child? && t.job == j)
    requires status == Triggered || status == QueuedForRun
    ensures TokensInv(s.(db := WithStatus(s.db, j, status), todo := s.todo - multiset{t}))
  {
    var s' := s.(db := WithStatus(s.db, j, status), todo := s.todo - multiset{t});
    assert Fits(s, t) && Owned(s, j);
    forall u | u in s'.todo ensures Fits(s', u) {
      assert Fits(s, u);
    }
    forall i | 0 <= i < |s'.db.jobs| ensures Owned(s', i) {
      ScheduleKeepsOwned(s, t, j, status, i);
    }
    forall b ensures s'.todo[Dispatch(b)] <= 1 {
      assert s'.todo[Dispatch(b)] == s.todo[Dispatch(b)];
    }
  }

  lemma ScheduleKeepsOwned(s: State, t: Task, j: nat, status: JobStatus, i: nat)
    requires t in s.todo && Fits(s, t) && j < |s.db.jobs| && i < |s.db.jobs| && Owned(s, i) && Owned(s, j)
    requires t == Initial(j) || t == Retry(j) || (t.Child? && t.job == j)
    requires status == Triggered || status == QueuedForRun
    ensures Owned(s.(db := WithStatus(s.db, j, status), todo := s.todo - multiset{t}), i)
  {}

  // The turn of a created job of the batch that waits for none.
  ghost predicate IsRootTurn(db: Db, b: nat, t: Task) {
    && t.Initial? && t.job < |db.jobs| && db.jobs[t.job].status == Created && db.jobs[t.job].batch == b
    && ParentOf(db.links, t.job) == None
  }

  lemma DispatchKeepsTokens(s: State, b: nat)
    requires TokensInv(s) && Dispatch(b) in s.todo
    ensures TokensInv(s.(todo := s.todo - multiset{Dispatch(b)} + InitialTokens(s.db, b, |s.db.jobs|)))
  {
    var added := InitialTokens(s.db, b, |s.db.jobs|);
    var s' := s.(todo := s.todo - multiset{Dispatch(b)} + added);
    forall t: Task
      ensures added[t] == if IsRootTurn(s.db, b, t) then 1 else 0
    {
      InitialTokensCount(s.db, b, |s.db.jobs|, t);
      if t.Initial? && t.job < |s.db.jobs| {
        PendingHasNoParent(s.db, b, t.job);
      }
    }
    forall u | u in s'.todo ensures Fits(s', u) {
      assert added[u] > 0 || u in s.todo;
    }
    forall i | 0 <= i < |s'.db.jobs| ensures Owned(s', i) {
      DispatchKeepsOwned(s, b, added, i);
    }
  }

  lemma DispatchKeepsOwned(s: State, b: nat, added: multiset<Task>, i: nat)
    requires i < |s.db.jobs| && Owned(s, i) && s.todo[Dispatch(b)] == 1
    requires forall t: Task :: added[t] == if IsRootTurn(s.db, b, t) then 1 else 0
    ensures Owned(s.(todo := s.todo - multiset{Dispatch(b)} + added), i)
  {}

  lemma CompletionKeepsTokens(s: State, p: nat)
    requires TokensInv(s) && Complete(p) in s.todo
    ensures TokensInv(s.(todo := s.todo - multiset{Complete(p)} + ChildTokens(s.db.links, p)))
  {
    var added := ChildTokens(s.db.links, p);
    var s' := s.(todo := s.todo - multiset{Complete(p)} + added);
    assert Fits(s, Complete(p)) && Owned(s, p);
    forall t ensures added[t] == if t.Child? && t.parent == p && ParentOf(s.db.links, t.job) == Some(p) then 1 else 0 {
      ChildTokensCount(s.db.links, p, t);
    }
    forall u | u in s'.todo ensures Fits(s', u) {
      if added[u] > 0 {
        ParentOfLink(s.db.links, u.job);
      } else {
        assert u in s.todo;
      }
    }
    forall i | 0 <= i < |s'.db.jobs| ensures Owned(s', i) {
      assert Owned(s, i);
    }
  }

  lemma CronKeepsTokens(s: State)
    requires TokensInv(s) && NoRetry(s)
    ensures TokensInv(s.(todo := s.todo + RetryTokens(s.db.jobs, |s.db.jobs|)))
  {
    var added := RetryTokens(s.db.jobs, |s.db.jobs|);
    var s' := s.(todo := s.todo + added);
    forall t: Task
      ensures added[t] == if t.Retry? && t.job < |s.db.jobs| && s.db.jobs[t.job].status == QueuedForRun then 1 else 0
    {
      RetryTokensCount(s.db.jobs, |s.db.jobs|, t);
    }
    forall u | u in s'.todo ensures Fits(s', u) {
      assert added[u] > 0 || u in s.todo;
    }
    forall i | 0 <= i < |s'.db.jobs| ensures Owned(s', i) {
      assert Owned(s, i);
      assert Retry(i) !in s.todo;
    }
  }

  lemma ReportKeepsTokens(s: State, j: nat, status: JobStatus)
    requires TokensInv(s) && j < |s.db.jobs| && Running(s.db.jobs[j].status)
    requires status == Started || status == Succeeded || status == Failed
    ensures TokensInv(s.(db := WithStatus(s.db, j, status),
                         todo := if status == Succeeded then s.todo + multiset{Complete(j)} else s.todo))
  {
    var s' := s.(db := WithStatus(s.db, j, status),
                 todo := if status == Succeeded then s.todo + multiset{Complete(j)} else s.todo);
    assert Owned(s, j);
    forall u | u in s'.todo ensures Fits(s', u) {
      assert u == Complete(j) || u in s.todo;
    }
    forall i | 0 <= i < |s'.db.jobs| ensures Owned(s', i) {
      assert Owned(s, i);
    }
    forall b ensures s'.todo[Dispatch(b)] <= 1 {
      assert s'.todo[Dispatch(b)] == s.todo[Dispatch(b)];
    }
  }
}
