/** The promises of the scheduler over runs whose cron runs do not overlap: order, one dispatch each, batch verdicts. */
module SchedulerTheorems {
  import opened Wrappers
  import opened Graphs
  import opened Tables
  import opened Scheduling
  import opened SchedulerMachine
  import opened SchedulerAnyRun
  import opened SchedulerSafety

  // Order

  // A job that has left the created state, or whose parent has succeeded.
  ghost predicate IsDue(s: State, j: nat)
    requires j < |s.db.jobs|
  {
    s.db.jobs[j].status != Created ||
    match ParentOf(s.db.links, j)
    case None => true
    case Some(p) => p < |s.db.jobs| && s.db.jobs[p].status == Succeeded
  }

  lemma {:induction false} AncestorsOfDueSucceeded(s: State, j: nat, u: Name, a: nat)
    requires TokensInv(s) && PlansInv(s) && j < |s.db.jobs| && IsDue(s, j)
    requires s.db.jobs[j].batch < |s.plans| && u != s.db.jobs[j].project
    requires Reaches(s.plans[s.db.jobs[j].batch].edges, u, s.db.jobs[j].project) &&
      IsJobOf(s.db, a, s.db.jobs[j].batch, u)
    ensures s.db.jobs[a].status == Succeeded
    decreases j
  {
    var row := s.db.jobs[j];
    var w := ReachesLastEdge(s.plans[row.batch].edges, u, row.project);
    assert w in Predecessors(s.plans[row.batch].edges, row.project);
    assert Mirrors(s.db, s.plans, j) && Owned(s, j);
    var p := ParentOf(s.db.links, j).value;
    assert s.db.jobs[p].project == w && s.db.jobs[p].batch == row.batch;
    if u == w {
      assert a == p;
    } else {
      AncestorsOfDueSucceeded(s, p, u, a);
    }
  }

  // A step dispatches one job at most, one that is due and was not dispatched before.
  lemma DispatchIsDue(limit: int, s: State, a: Action)
    requires Inv(limit, s) && Enabled(s, a)
    ensures var was, now := s.db.dispatched, Next(limit, s, a).db.dispatched;
            now == was ||
            (now == was + [now[|now| - 1]] && |now| > 0 &&
             var j := now[|now| - 1];
             && j < |s.db.jobs| && IsDue(s, j) && j !in was
             && s.db.jobs[j].status in {Created, QueuedForRun})
  {
    if a.Perform? && !a.task.Dispatch? && !a.task.Complete? {
      TaskIsDue(s, a.task, a.task.job);
    }
  }

  // All jobs of the batch for projects above that of j in the batch's graph have succeeded.
  ghost predicate AncestorsSucceeded(s: State, j: nat)
    requires j < |s.db.jobs| && s.db.jobs[j].batch < |s.plans|
  {
    var row := s.db.jobs[j];
    forall u, a ::
      u != row.project && Reaches(s.plans[row.batch].edges, u, row.project) && IsJobOf(s.db, a, row.batch, u) ==>
                     s.db.jobs[a].status == Succeeded
  }

  lemma DueIsAfterAncestors(s: State, j: nat)
    requires TokensInv(s) && PlansInv(s) && j < |s.db.jobs| && IsDue(s, j)
    ensures s.db.jobs[j].batch < |s.plans| && AncestorsSucceeded(s, j)
  {
    var row := s.db.jobs[j];
    assert Mirrors(s.db, s.plans, j);
    forall u, a | u != row.project && Reaches(s.plans[row.batch].edges, u, row.project) &&
      IsJobOf(s.db, a, row.batch, u)
      ensures s.db.jobs[a].status == Succeeded
    {
      AncestorsOfDueSucceeded(s, j, u, a);
    }
  }

  // Every job is dispatched at most once, and only when all jobs of its batch for projects above its own
  // in the contracted graph have succeeded.
  lemma DispatchedOnceAfterAncestors(limit: int, states: seq<State>, actions: seq<Action>, i: nat, j: nat)
    requires IsRun(limit, states, actions) && NoOverlap(states, actions) && i < |actions|
    requires states[i + 1].db.dispatched == states[i].db.dispatched + [j]
    ensures j !in states[i].db.dispatched
    ensures j < |states[i].db.jobs| && states[i].db.jobs[j].batch < |states[i].plans| &&
      AncestorsSucceeded(states[i], j)
  {
    RunKeepsInv(limit, states, actions, i);
    DispatchIsDue(limit, states[i], actions[i]);
    var now := states[i + 1].db.dispatched;
    assert now[|now| - 1] == j;
    DueIsAfterAncestors(states[i], j);
  }

  lemma NeverDispatchedTwice(limit: int, states: seq<State>, actions: seq<Action>, i: nat, k: nat, m: nat)
    requires IsRun(limit, states, actions) && NoOverlap(states, actions) && i < |states| &&
      k < m < |states[i].db.dispatched|
    ensures states[i].db.dispatched[k] != states[i].db.dispatched[m]
  {
    RunKeepsInv(limit, states, actions, i);
  }

  // What one parent each rules out: two completed parents, and the child they share is dispatched twice.
  lemma TwoParentsDispatchTwice(s: State, p: nat, q: nat, c: nat) returns (s1: State, s2: State, s3: State, s4: State)
    requires p < |s.db.jobs| && q < |s.db.jobs| && c < |s.db.jobs| && p != q && p != c && q != c
    requires s.db.links == [LinkRow(p, c), LinkRow(q, c)]
    requires s.db.jobs[p].status == Succeeded && s.db.jobs[q].status == Succeeded && s.db.jobs[c].status == Created
    requires Complete(p) in s.todo && Complete(q) in s.todo
    ensures Steps(s, Complete(p), s1) && Steps(s1, Complete(q), s2)
    ensures Steps(s2, Child(p, c), s3) && Steps(s3, Child(q, c), s4)
    ensures s4.db.dispatched == s.db.dispatched + [c, c]
  {
    assert s.db.links[0] == LinkRow(p, c) && s.db.links[1] == LinkRow(q, c);
    s1 := CompletesWithChild(s, p, c);
    s2 := CompletesWithChild(s1, q, c);
    s3, s4 := ChildDispatchedTwice(s2, p, q, c);
  }

  lemma ChildDispatchedTwice(s: State, p: nat, q: nat, c: nat) returns (t: State, u: State)
    requires p < |s.db.jobs| && q < |s.db.jobs| && c < |s.db.jobs| && p != q
    requires AllParentsSucceeded(s.db, c) && s.db.jobs[c].status == Created
    requires Child(p, c) in s.todo && Child(q, c) in s.todo
    ensures Steps(s, Child(p, c), t) && Steps(t, Child(q, c), u)
    ensures u.db.dispatched == s.db.dispatched + [c, c]
  {
    t := DispatchesChild(s, p, c);
    assert Child(q, c) in t.todo;
    forall k | 0 <= k < |t.db.links| && t.db.links[k].child == c
      ensures t.db.links[k].parent < |t.db.jobs| && t.db.jobs[t.db.links[k].parent].status == Succeeded
    {
      assert s.db.jobs[s.db.links[k].parent].status == Succeeded;
    }
    u := DispatchesChild(t, q, c);
  }

  ghost predicate Steps(s: State, task: Task, t: State) {
    Enabled(s, Perform(task)) && t == Next(0, s, Perform(task))
  }

  lemma CompletesWithChild(s: State, p: nat, c: nat) returns (t: State)
    requires p < |s.db.jobs| && Complete(p) in s.todo && |s.db.links| == 2
    requires s.db.links[0].parent != s.db.links[1].parent && LinkRow(p, c) in s.db.links
    ensures Steps(s, Complete(p), t)
    ensures t == s.(todo := s.todo - multiset{Complete(p)} + multiset{Child(p, c)})
  {
    var links := s.db.links;
    assert links[..1][..0] == [] && links[..1][0] == links[0];
    var first := links[0];
    assert ChildTokens(links[..1], p) == if first.parent == p then multiset{Child(p, first.child)} else multiset{};
    assert ChildTokens(links, p) == multiset{Child(p, c)};
    t := Next(0, s, Perform(Complete(p)));
  }

  lemma DispatchesChild(s: State, p: nat, c: nat) returns (t: State)
    requires p < |s.db.jobs| && c < |s.db.jobs| && Child(p, c) in s.todo && AllParentsSucceeded(s.db, c)
    ensures Steps(s, Child(p, c), t)
    ensures t == s.(db := AfterTrigger(s.db, c), todo := s.todo - multiset{Child(p, c)})
  {
    t := Next(0, s, Perform(Child(p, c)));
  }

  // Batches

  // In every reachable state a batch is marked succeeded exactly when it has jobs and all have succeeded,
  // and the mark is never taken back.
  lemma BatchVerdict(limit: int, states: seq<State>, actions: seq<Action>, i: nat, k: nat, b: nat)
    requires IsRun(limit, states, actions) && NoOverlap(states, actions) && i <= k < |states| &&
      b < |states[i].db.batches|
    ensures b < |states[k].db.batches|
    ensures states[i].db.batches[b].status == BatchSucceeded <==>
      NonEmpty(states[i].db.jobs, b) && AllSucceeded(states[i].db.jobs, b)
    ensures states[i].db.batches[b].status in {BatchInvalidated, BatchFailed, BatchSucceeded} ==>
      states[k].db.batches[b].status == states[i].db.batches[b].status
  {
    RunKeepsInv(limit, states, actions, i);
    TerminalForever(limit, states, actions, i, k, b);
  }

  // A pull request is merged only by the report that completes an apply batch with automerge on and every
  // impacted project applied, and once per batch.
  lemma MergedWhenApplied(limit: int, states: seq<State>, actions: seq<Action>, i: nat)
    requires IsRun(limit, states, actions) && NoOverlap(states, actions) && i < |actions|
    ensures var was, now := states[i].db.merged, states[i + 1].db.merged;
            now == was ||
            (|now| > 0 && now == was + [now[|now| - 1]] &&
             var b, db := now[|now| - 1], states[i + 1].db;
             && b !in was && b < |db.batches|
             && db.batches[b].kind == ApplyBatch && db.batches[b].automerge && db.batches[b].status == BatchSucceeded
             && NonEmpty(db.jobs, b) && AllSucceeded(db.jobs, b)
             && actions[i].Report? && actions[i].allApplied)
  {
    RunKeepsInv(limit, states, actions, i + 1);
    var a, was, now := actions[i], states[i].db.merged, states[i + 1].db.merged;
    StepMerges(limit, states[i], a);
    if now != was {
      LastMerged(states[i + 1].db, was, now[|now| - 1]);
    }
  }

  lemma LastMerged(db: Db, was: seq<nat>, b: nat)
    requires BatchInv(db) && db.merged == was + [b]
    ensures b !in was && b < |db.batches|
    ensures db.batches[b].kind == ApplyBatch && db.batches[b].automerge && db.batches[b].status == BatchSucceeded
    ensures NonEmpty(db.jobs, b) && AllSucceeded(db.jobs, b)
  {
    assert db.merged[|was|] == b;
    assert forall k :: 0 <= k < |was| ==> db.merged[k] == was[k];
  }

  // The step that merges is exactly the success report, with every impacted project applied, after which all jobs of
  // an apply batch with automerge on have succeeded.
  lemma MergedIff(limit: int, states: seq<State>, actions: seq<Action>, i: nat, b: nat)
    requires IsRun(limit, states, actions) && NoOverlap(states, actions)
    requires i < |actions| && b < |states[i].db.batches|
    ensures var a, s, t := actions[i], states[i].db, states[i + 1].db;
            t.merged == s.merged + [b] <==>
              && a.Report? && a.status == Succeeded && a.allApplied && s.jobs[a.job].batch == b
              && s.batches[b].kind == ApplyBatch && s.batches[b].automerge
              && forall k :: 0 <= k < |t.jobs| && t.jobs[k].batch == b ==> t.jobs[k].status == Succeeded
  {
    var a, s, t := actions[i], states[i].db, states[i + 1].db;
    RunKeepsInv(limit, states, actions, i);
    if a.Report? {
      ReportMergesIff(s, t, a.job, a.status, a.allApplied, b);
    } else {
      StepMerges(limit, states[i], a);
    }
  }

  lemma ReportMergesIff(db: Db, after: Db, j: nat, status: JobStatus, allApplied: bool, b: nat)
    requires BatchInv(db) && j < |db.jobs| && db.jobs[j].batch < |db.batches| && db.jobs[j].status != Succeeded
    requires after == AfterReport(db, j, status, allApplied) && b < |db.batches|
    ensures after.merged == db.merged + [b] <==>
              && status == Succeeded && allApplied && db.jobs[j].batch == b
              && db.batches[b].kind == ApplyBatch && db.batches[b].automerge
              && forall k :: 0 <= k < |after.jobs| && after.jobs[k].batch == b ==> after.jobs[k].status == Succeeded
  {
    ReportMeans(db, j, status, allApplied);
    RunningBatchIsOpen(db, j);
    LastReportOf(db, after, j, status);
    var c := db.jobs[j].batch;
    assert (db.merged + [b])[|db.merged|] == b && (db.merged + [c])[|db.merged|] == c;
    assert after.batches[c] == BatchRow(ApplyBatch, BatchSucceeded, true) <==>
           db.batches[c].kind == ApplyBatch && db.batches[c].automerge && after.batches[c].status == BatchSucceeded;
  }

  lemma RunningBatchIsOpen(db: Db, j: nat)
    requires BatchInv(db) && j < |db.jobs| && db.jobs[j].batch < |db.batches| && db.jobs[j].status != Succeeded
    ensures db.batches[db.jobs[j].batch].status == BatchCreated
  {
    assert !AllSucceeded(db.jobs, db.jobs[j].batch);
  }

  lemma LastReportOf(db: Db, after: Db, j: nat, status: JobStatus)
    requires j < |db.jobs| && OnlyJobChanged(db, after, j, status)
    ensures (forall k :: 0 <= k < |after.jobs| && after.jobs[k].batch == db.jobs[j].batch ==>
               after.jobs[k].status == Succeeded) ==> status == Succeeded
  {
    assert after.jobs[j].batch == db.jobs[j].batch;
  }

  // The limit, from both sides: a turn dispatches its job if and only if the limit leaves room, and with a positive
  // limit a turn that leaves its job queued leaves exactly that many jobs of the batch triggered or started.
  lemma TurnsUseTheLimit(limit: int, states: seq<State>, actions: seq<Action>, i: nat)
    requires IsRun(limit, states, actions) && NoOverlap(states, actions) && i < |actions| && actions[i].Perform?
    requires actions[i].task.Initial? || actions[i].task.Child? || actions[i].task.Retry?
    ensures var j, s, t := actions[i].task.job, states[i].db, states[i + 1].db;
            && j < |s.jobs| && j < |t.jobs|
            && var running := set k | 0 <= k < |s.jobs| && s.jobs[k].batch == s.jobs[j].batch
                                      && (s.jobs[k].status == Triggered || s.jobs[k].status == Started);
               var still := set k | 0 <= k < |t.jobs| && t.jobs[k].batch == t.jobs[j].batch
                                    && (t.jobs[k].status == Triggered || t.jobs[k].status == Started);
            && (limit == 0 || |running| < limit <==> t.dispatched == s.dispatched + [j])
            && (limit == 0 || |running| < limit <==> t.jobs[j].status == Triggered)
            && (limit > 0 && t.jobs[j].status == QueuedForRun ==> |still| == limit)
  {
    var j, s, t := actions[i].task.job, states[i].db, states[i + 1].db;
    RunKeepsInv(limit, states, actions, i);
    TaskIsDue(states[i], actions[i].task, j);
    assert t == AfterSchedule(limit, s, s.jobs[j].batch, j);
    LimitedTurn(limit, s, t, j);
  }

  lemma LimitedTurn(limit: int, s: Db, t: Db, j: nat)
    requires LimitInv(limit, s) && j < |s.jobs| && s.jobs[j].status in {Created, QueuedForRun}
    requires t == AfterSchedule(limit, s, s.jobs[j].batch, j)
    ensures |t.jobs| == |s.jobs|
    ensures var running := set k | 0 <= k < |s.jobs| && s.jobs[k].batch == s.jobs[j].batch
                                   && (s.jobs[k].status == Triggered || s.jobs[k].status == Started);
            && (limit == 0 || |running| < limit <==> t.dispatched == s.dispatched + [j])
            && (limit == 0 || |running| < limit <==> t.jobs[j].status == Triggered)
    ensures var still := set k | 0 <= k < |t.jobs| && t.jobs[k].batch == t.jobs[j].batch
                                 && (t.jobs[k].status == Triggered || t.jobs[k].status == Started);
            limit > 0 && t.jobs[j].status == QueuedForRun ==> |still| == limit
  {
    var b := s.jobs[j].batch;
    ScheduleMeans(limit, s, b, j);
    var still := set k | 0 <= k < |t.jobs| && t.jobs[k].batch == t.jobs[j].batch
                         && (t.jobs[k].status == Triggered || t.jobs[k].status == Started);
    assert still == ActiveJobs(t.jobs, b);
    ActiveAfter(s, j, t.jobs[j].status, b);
  }
}
