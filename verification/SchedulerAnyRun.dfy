/** What holds in every run of the scheduler, whether or not cron runs overlap. */
module SchedulerAnyRun {
  import opened Wrappers
  import opened Graphs
  import opened Tables
  import opened JobCreation
  import opened Scheduling
  import opened SchedulerMachine
  import opened SchedulerSafety

  // Some outstanding activity will handle a created job whose turn has come.
  ghost predicate NotForgotten(s: State, j: nat)
    requires j < |s.db.jobs|
  {
    s.db.jobs[j].status == Created ==>
      match ParentOf(s.db.links, j)
      case None => s.todo[Dispatch(s.db.jobs[j].batch)] + s.todo[Initial(j)] >= 1
      case Some(p) =>
        p < |s.db.jobs| && (s.db.jobs[p].status == Succeeded ==> s.todo[Complete(p)] + s.todo[Child(p, j)] >= 1)
  }

  ghost predicate TurnsInv(s: State) {
    && WellLinked(s.db)
    && (forall t :: t in s.todo ==> Fits(s, t))
    && (forall j :: 0 <= j < |s.db.jobs| ==> NotForgotten(s, j))
  }

  ghost predicate LooseInv(limit: int, s: State) {
    TurnsInv(s) && PlansInv(s) && LimitInv(limit, s.db)
  }

  // One call of ScheduleJob for job j, whatever its status.
  lemma ScheduleKeepsTurns(s: State, t: Task, j: nat, status: JobStatus)
    requires TurnsInv(s) && t in s.todo && j < |s.db.jobs|
    requires t == Initial(j) || t == Retry(j) || (t.Child? && t.job == j)
    requires status == Triggered || status == QueuedForRun
    ensures TurnsInv(s.(db := WithStatus(s.db, j, status), todo := s.todo - multiset{t}))
  {
    var s' := s.(db := WithStatus(s.db, j, status), todo := s.todo - multiset{t});
    forall u | u in s'.todo ensures Fits(s', u) {
      assert Fits(s, u);
    }
    forall i | 0 <= i < |s'.db.jobs| ensures NotForgotten(s', i) {
      assert NotForgotten(s, i);
    }
  }

  // A child whose parent is not done is dropped: a later completion will come back to it.
  lemma DroppedChildKeepsTurns(s: State, t: Task)
    requires TurnsInv(s) && t in s.todo && t.Child? && !AllParentsSucceeded(s.db, t.job)
    ensures TurnsInv(s.(todo := s.todo - multiset{t}))
  {
    var s' := s.(todo := s.todo - multiset{t});
    assert Fits(s, t);
    ParentOfLink(s.db.links, t.job);
    forall u | u in s'.todo ensures Fits(s', u) {
      assert Fits(s, u);
    }
    forall i | 0 <= i < |s'.db.jobs| ensures NotForgotten(s', i) {
      assert NotForgotten(s, i);
    }
  }

  lemma DispatchKeepsTurns(s: State, b: nat)
    requires TurnsInv(s) && Dispatch(b) in s.todo
    ensures TurnsInv(s.(todo := s.todo - multiset{Dispatch(b)} + InitialTokens(s.db, b, |s.db.jobs|)))
  {
    var n, added := |s.db.jobs|, InitialTokens(s.db, b, |s.db.jobs|);
    var s' := s.(todo := s.todo - multiset{Dispatch(b)} + added);
    forall u | u in s'.todo ensures Fits(s', u) {
      InitialTokensCount(s.db, b, n, u);
      if u !in s.todo {
        PendingHasNoParent(s.db, b, u.job);
      } else {
        assert Fits(s, u);
      }
    }
    forall i | 0 <= i < n ensures NotForgotten(s', i) {
      assert NotForgotten(s, i);
      PendingHasNoParent(s.db, b, i);
      InitialTokensCount(s.db, b, n, Initial(i));
    }
  }

  lemma CompletionKeepsTurns(s: State, p: nat)
    requires TurnsInv(s) && Complete(p) in s.todo
    ensures TurnsInv(s.(todo := s.todo - multiset{Complete(p)} + ChildTokens(s.db.links, p)))
  {
    var added := ChildTokens(s.db.links, p);
    var s' := s.(todo := s.todo - multiset{Complete(p)} + added);
    assert Fits(s, Complete(p));
    forall u | u in s'.todo ensures Fits(s', u) {
      ChildTokensCount(s.db.links, p, u);
      if u !in s.todo {
        ParentOfLink(s.db.links, u.job);
      } else {
        assert Fits(s, u);
      }
    }
    forall i | 0 <= i < |s'.db.jobs| ensures NotForgotten(s', i) {
      assert NotForgotten(s, i);
      ChildTokensCount(s.db.links, p, Child(p, i));
    }
  }

  lemma CronKeepsTurns(s: State)
    requires TurnsInv(s)
    ensures TurnsInv(s.(todo := s.todo + RetryTokens(s.db.jobs, |s.db.jobs|)))
  {
    var n := |s.db.jobs|;
    var s' := s.(todo := s.todo + RetryTokens(s.db.jobs, n));
    forall u | u in s'.todo ensures Fits(s', u) {
      RetryTokensCount(s.db.jobs, n, u);
      assert u in s.todo ==> Fits(s, u);
    }
    forall i | 0 <= i < n ensures NotForgotten(s', i) {
      assert NotForgotten(s, i);
    }
  }

  lemma ReportKeepsTurns(s: State, j: nat, status: JobStatus, allApplied: bool)
    requires TurnsInv(s) && Enabled(s, Report(j, status, allApplied))
    ensures TurnsInv(s.(db := AfterReport(s.db, j, status, allApplied),
                        todo := if status == Succeeded then s.todo + multiset{Complete(j)} else s.todo))
  {
    var s' := s.(db := AfterReport(s.db, j, status, allApplied),
                 todo := if status == Succeeded then s.todo + multiset{Complete(j)} else s.todo);
    assert s'.db.jobs == WithStatus(s.db, j, status).jobs;
    forall u | u in s'.todo ensures Fits(s', u) {
      assert u == Complete(j) || Fits(s, u);
    }
    forall i | 0 <= i < |s'.db.jobs| ensures NotForgotten(s', i) {
      ReportForgetsNone(s, s', j, status, i);
    }
  }

  lemma ReportForgetsNone(s: State, t: State, j: nat, status: JobStatus, i: nat)
    requires i < |s.db.jobs| && NotForgotten(s, i) && j < |s.db.jobs| && status != Created
    requires t.db.jobs == WithStatus(s.db, j, status).jobs && t.db.links == s.db.links
    requires t.todo == if status == Succeeded then s.todo + multiset{Complete(j)} else s.todo
    ensures NotForgotten(t, i)
  {}

  lemma NewBatchKeepsTurns(s: State, row: BatchRow, graph: Digraph, jobs: seq<JobRow>, links: seq<LinkRow>)
    requires TurnsInv(s) && Appends(s.db, graph, jobs, links)
    ensures TurnsInv(WithBatch(s, row, graph, jobs, links))
  {
    var b, s' := |s.db.batches|, WithBatch(s, row, graph, jobs, links);
    NewBatchWellLinked(s.db, row, graph, jobs, links);
    forall t | t in s'.todo ensures Fits(s', t) {
      if t in s.todo {
        assert Fits(s, t);
        if t.Initial? || t.Child? {
          OldParentsKept(s.db, jobs, links, t.job);
        }
      }
    }
    forall j | 0 <= j < |jobs| ensures NotForgotten(s', j) {
      if j < |s.db.jobs| {
        assert jobs[j] == s.db.jobs[j] && NotForgotten(s, j);
        OldParentsKept(s.db, jobs, links, j);
      } else {
        assert ParentAppended(s.db, graph, jobs, links, j);
      }
    }
  }

  // The limit

  lemma ScheduleKeepsLimit(limit: int, db: Db, j: nat)
    requires LimitInv(limit, db) && j < |db.jobs|
    ensures LimitInv(limit, AfterSchedule(limit, db, db.jobs[j].batch, j))
  {
    var db' := AfterSchedule(limit, db, db.jobs[j].batch, j);
    forall b ensures limit > 0 ==> |ActiveJobs(db'.jobs, b)| <= limit {
      ActiveAfter(db, j, db'.jobs[j].status, b);
    }
  }

  lemma ReportKeepsLimit(limit: int, db: Db, j: nat, status: JobStatus, allApplied: bool)
    requires LimitInv(limit, db) && j < |db.jobs| && db.jobs[j].batch < |db.batches| && Running(db.jobs[j].status)
    ensures LimitInv(limit, AfterReport(db, j, status, allApplied))
  {
    var db' := AfterReport(db, j, status, allApplied);
    forall b ensures limit > 0 ==> |ActiveJobs(db'.jobs, b)| <= limit {
      ActiveAfter(db, j, status, b);
    }
  }

  lemma NewBatchKeepsLimit(limit: int, db: Db, row: BatchRow, graph: Digraph, jobs: seq<JobRow>, links: seq<LinkRow>)
    requires LimitInv(limit, db) && JobsAppended(db, graph, jobs)
    ensures LimitInv(limit, db.(jobs := jobs, links := links, batches := db.batches + [row]))
  {
    forall j | 0 <= j < |db.jobs| ensures jobs[j] == db.jobs[j] {}
    forall b ensures ActiveJobs(jobs, b) == ActiveJobs(db.jobs, b) {}
  }

  // Every step

  lemma StepKeepsLooseInv(limit: int, s: State, a: Action)
    requires LooseInv(limit, s) && Enabled(s, a)
    ensures LooseInv(limit, Next(limit, s, a))
  {
    match a
    case NewBatch(row, graph, visits) =>
      var built := BuiltFrom(s, graph, visits);
      ConversionAppends(s, graph, visits);
      NewBatchKeepsTurns(s, row, graph, built.jobs, built.links);
      NewBatchKeepsPlans(s, row, graph, built.jobs, built.links);
      NewBatchKeepsLimit(limit, s.db, row, graph, built.jobs, built.links);
    case StartCron => CronKeepsTurns(s);
    case Report(j, status, allApplied) =>
      ReportKeepsTurns(s, j, status, allApplied);
      StatusKeepsPlans(s, j, status, AfterReport(s.db, j, status, allApplied));
      ReportKeepsLimit(limit, s.db, j, status, allApplied);
    case Perform(task) =>
      match task
      case Dispatch(b) => DispatchKeepsTurns(s, b);
      case Complete(p) => CompletionKeepsTurns(s, p);
      case _ => SchedulingKeepsLooseInv(limit, s, task);
  }

  lemma SchedulingKeepsLooseInv(limit: int, s: State, task: Task)
    requires LooseInv(limit, s) && Enabled(s, Perform(task)) && !task.Dispatch? && !task.Complete?
    ensures LooseInv(limit, Next(limit, s, Perform(task)))
  {
    var j := task.job;
    assert Fits(s, task);
    if task.Child? && !AllParentsSucceeded(s.db, j) {
      DroppedChildKeepsTurns(s, task);
    } else {
      SameBatch(s, task);
      var db' := AfterSchedule(limit, s.db, s.db.jobs[j].batch, j);
      var status := db'.jobs[j].status;
      ScheduleKeepsTurns(s, task, j, status);
      TurnsIgnoreDispatches(s, j, status, db', s.todo - multiset{task});
      StatusKeepsPlans(s, j, status, db');
      ScheduleKeepsLimit(limit, s.db, j);
    }
  }

  lemma SameBatch(s: State, task: Task)
    requires WellLinked(s.db) && Fits(s, task)
    ensures task.Child? ==> s.db.jobs[task.parent].batch == s.db.jobs[task.job].batch
  {
    if task.Child? {
      ParentOfLink(s.db.links, task.job);
    }
  }

  lemma TurnsIgnoreDispatches(s: State, j: nat, status: JobStatus, db: Db, todo: multiset<Task>)
    requires j < |s.db.jobs| && TurnsInv(State(WithStatus(s.db, j, status), todo, s.plans))
    requires db.(dispatched := s.db.dispatched) == WithStatus(s.db, j, status)
    ensures TurnsInv(State(db, todo, s.plans))
  {
    var s1, s2 := State(WithStatus(s.db, j, status), todo, s.plans), State(db, todo, s.plans);
    forall t | t in todo ensures Fits(s2, t) {
      assert Fits(s1, t);
    }
    forall i | 0 <= i < |db.jobs| ensures NotForgotten(s2, i) {
      assert NotForgotten(s1, i);
    }
  }

  lemma {:induction false} RunKeepsLooseInv(limit: int, states: seq<State>, actions: seq<Action>, i: nat)
    requires IsRun(limit, states, actions) && i < |states|
    ensures LooseInv(limit, states[i])
    decreases i
  {
    if i == 0 {
      forall b ensures ActiveJobs(START.db.jobs, b) == {} {}
    } else {
      RunKeepsLooseInv(limit, states, actions, i - 1);
      var a := actions[i - 1];
      StepKeepsLooseInv(limit, states[i - 1], a);
      assert states[i - 1 + 1] == Next(limit, states[i - 1], a);
    }
  }

  // With a positive limit no batch ever has more jobs running; with a negative one nothing ever runs.
  lemma LimitRespected(limit: int, states: seq<State>, actions: seq<Action>, i: nat, b: nat)
    requires IsRun(limit, states, actions) && i < |states|
    ensures var jobs := states[i].db.jobs;
            limit > 0 ==> |set k | 0 <= k < |jobs| && jobs[k].batch == b
                                   && (jobs[k].status == Triggered || jobs[k].status == Started)| <= limit
    ensures limit < 0 ==> states[i].db.dispatched == []
  {
    RunKeepsLooseInv(limit, states, actions, i);
    var jobs := states[i].db.jobs;
    assert ActiveJobs(jobs, b) == set k | 0 <= k < |jobs| && jobs[k].batch == b
                                          && (jobs[k].status == Triggered || jobs[k].status == Started);
  }

  // What a worker has reported

  // A step gives a job one of the reported statuses only as a report of that very status for that job.
  lemma ReportedByStep(limit: int, s: State, a: Action, j: nat)
    requires LooseInv(limit, s) && Enabled(s, a) && j < |Next(limit, s, a).db.jobs|
    ensures var row := Next(limit, s, a).db.jobs[j];
            row.status in {Started, Succeeded, Failed} ==>
              (j < |s.db.jobs| && s.db.jobs[j] == row) || (a.Report? && a.job == j && a.status == row.status)
  {
    match a
    case NewBatch(row, graph, visits) => ConversionAppends(s, graph, visits);
    case Report(i, status, allApplied) => ReportMeans(s.db, i, status, allApplied);
    case StartCron =>
    case Perform(task) =>
      if task.Initial? || task.Child? || task.Retry? {
        ScheduleMeans(limit, s.db, s.db.jobs[if task.Child? then task.parent else task.job].batch, task.job);
      }
  }

  // In every run a job is started, succeeded or failed only if a worker has reported just that.
  lemma {:induction false} StatusWasReported(limit: int, states: seq<State>, actions: seq<Action>, i: nat, j: nat)
    requires IsRun(limit, states, actions) && i < |states| && j < |states[i].db.jobs|
    requires states[i].db.jobs[j].status in {Started, Succeeded, Failed}
    ensures exists m :: 0 <= m < i && m < |actions| && actions[m].Report? && actions[m].job == j
                        && actions[m].status == states[i].db.jobs[j].status
    decreases i
  {
    if i > 0 {
      var a := actions[i - 1];
      RunKeepsLooseInv(limit, states, actions, i - 1);
      ReportedByStep(limit, states[i - 1], a, j);
      assert states[i - 1 + 1] == Next(limit, states[i - 1], a);
      if !(a.Report? && a.job == j && a.status == states[i].db.jobs[j].status) {
        StatusWasReported(limit, states, actions, i - 1, j);
      }
    }
  }

  // Batches

  // A step marks a batch succeeded only as the report that completes it, and never changes a terminal mark.
  lemma MarkedWhenAllSucceeded(limit: int, s: State, a: Action, b: nat)
    requires Enabled(s, a) && b < |s.db.batches|
    ensures var was, t := s.db.batches[b].status, Next(limit, s, a);
            && b < |t.db.batches|
            && (t.db.batches[b].status ==
                 was || (was in {BatchCreated, BatchStarted} && t.db.batches[b].status == BatchSucceeded
                                                  && AllSucceeded(t.db.jobs, b) && a.Report? && a.status == Succeeded
                                                  && s.db.jobs[a.job].batch == b))
  {
    if a.Report? {
      assert a.status != Succeeded ==> Next(limit, s, a).db.jobs[a.job].status != Succeeded;
    }
  }

  lemma {:induction false} TerminalForever(limit: int, states: seq<State>, actions: seq<Action>, i: nat, k: nat, b: nat)
    requires IsRun(limit, states, actions) && i <= k < |states| && b < |states[i].db.batches|
    ensures b < |states[k].db.batches|
    ensures states[i].db.batches[b].status in {BatchInvalidated, BatchFailed, BatchSucceeded} ==>
              states[k].db.batches[b].status == states[i].db.batches[b].status
    decreases k
  {
    if i < k {
      TerminalForever(limit, states, actions, i, k - 1, b);
      var a := actions[k - 1];
      MarkedWhenAllSucceeded(limit, states[k - 1], a, b);
      assert states[k - 1 + 1] == Next(limit, states[k - 1], a);
    }
  }

  // A step merges one pull request at most: a report with every impacted project applied, for a succeeded apply
  // batch with automerge on.
  lemma StepMerges(limit: int, s: State, a: Action)
    requires Enabled(s, a)
    ensures var was, t := s.db.merged, Next(limit, s, a);
            t.db.merged == was ||
            (a.Report? && a.allApplied &&
             var b := s.db.jobs[a.job].batch;
             && t.db.merged == was + [b] && b < |t.db.batches|
             && t.db.batches[b] == BatchRow(ApplyBatch, BatchSucceeded, true))
  {}

  // Where a run ends

  ghost predicate IsJobOf(db: Db, a: int, b: nat, u: Name) {
    0 <= a < |db.jobs| && db.jobs[a].batch == b && db.jobs[a].project == u
  }

  ghost predicate Quiescent(s: State) {
    && s.todo == multiset{}
    && forall j :: 0 <= j < |s.db.jobs| ==> !Running(s.db.jobs[j].status) && s.db.jobs[j].status != QueuedForRun
  }

  ghost predicate HasFailedAncestor(s: State, j: nat)
    requires j < |s.db.jobs| && s.db.jobs[j].batch < |s.plans|
  {
    exists u, a ::
      && u != s.db.jobs[j].project && Reaches(s.plans[s.db.jobs[j].batch].edges, u, s.db.jobs[j].project)
      && IsJobOf(s.db, a, s.db.jobs[j].batch, u) && s.db.jobs[a].status == Failed
  }

  lemma {:induction false} UnfinishedHasFailedAncestor(s: State, j: nat)
    requires TurnsInv(s) && PlansInv(s) && Quiescent(s) && j < |s.db.jobs| && s.db.jobs[j].status == Created
    ensures s.db.jobs[j].batch < |s.plans| && HasFailedAncestor(s, j)
    decreases j
  {
    var b, v := s.db.jobs[j].batch, s.db.jobs[j].project;
    assert Mirrors(s.db, s.plans, j) && NotForgotten(s, j);
    var p := ParentOf(s.db.links, j).value;
    var w, edges := s.db.jobs[p].project, s.plans[b].edges;
    assert w in Predecessors(edges, v);
    assert (w, v) in edges;
    ReachesEdge(edges, w, v);
    ReachesSelf(edges, v);
    assert w != v;
    assert IsJobOf(s.db, p, b, w);
    if s.db.jobs[p].status != Failed {
      UnfinishedHasFailedAncestor(s, p);
      var u, a :| u != w && Reaches(edges, u, w) && IsJobOf(s.db, a, b, u) && s.db.jobs[a].status == Failed;
      ReachesTransitive(edges, u, w, v);
      if u == v {
        NoReachBack(edges, v, w);
      }
    }
  }

  // With nothing under way and nothing queued, every job has succeeded, has failed, or waits below a failure.
  lemma QuiescentIsFinished(limit: int, states: seq<State>, actions: seq<Action>, i: nat)
    requires IsRun(limit, states, actions) && i < |states| && Quiescent(states[i])
    ensures forall j :: 0 <= j < |states[i].db.jobs| ==>
              var row := states[i].db.jobs[j];
              row.batch < |states[i].plans| &&
              (row.status == Succeeded || row.status == Failed || HasFailedAncestor(states[i], j))
    ensures (forall j :: 0 <= j < |states[i].db.jobs| ==> states[i].db.jobs[j].status != Failed) ==>
              forall j :: 0 <= j < |states[i].db.jobs| ==> states[i].db.jobs[j].status == Succeeded
  {
    var s := states[i];
    RunKeepsLooseInv(limit, states, actions, i);
    forall j | 0 <= j < |s.db.jobs|
      ensures s.db.jobs[j].batch < |s.plans|
      ensures s.db.jobs[j].status == Succeeded || s.db.jobs[j].status == Failed || HasFailedAncestor(s, j)
    {
      assert Mirrors(s.db, s.plans, j);
      if s.db.jobs[j].status == Created {
        UnfinishedHasFailedAncestor(s, j);
      }
    }
    forall j | 0 <= j < |s.db.jobs| && HasFailedAncestor(s, j)
      ensures exists a :: 0 <= a < |s.db.jobs| && s.db.jobs[a].status == Failed
    {
      var u, a :|
        && u != s.db.jobs[j].project && Reaches(s.plans[s.db.jobs[j].batch].edges, u, s.db.jobs[j].project)
        && IsJobOf(s.db, a, s.db.jobs[j].batch, u) && s.db.jobs[a].status == Failed;
    }
  }
}
