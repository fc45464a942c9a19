/** What each database-backed step of the scheduler does to the tables. */
module Scheduling {
  import opened Wrappers
  import opened Tables

  predicate Running(status: JobStatus) {
    status == Triggered || status == Started
  }

  predicate WasTriggered(status: JobStatus) {
    status != Created && status != QueuedForRun
  }

  // The rows of a batch whose workflow is under way.
  function ActiveJobs(jobs: seq<JobRow>, b: nat): set<nat> {
    set i | 0 <= i < |jobs| && jobs[i].batch == b && Running(jobs[i].status)
  }

  function WithStatus(db: Db, j: nat, status: JobStatus): Db
    requires j < |db.jobs|
  {
    db.(jobs := db.jobs[j := db.jobs[j].(status := status)])
  }

  function AfterTrigger(db: Db, j: nat): Db
    requires j < |db.jobs|
  {
    WithStatus(db, j, Triggered).(dispatched := db.dispatched + [j])
  }

  // limit 0 means no limit; any other limit queues the job once that many of the batch are running.
  function AfterSchedule(limit: int, db: Db, b: nat, j: nat): Db
    requires j < |db.jobs|
  {
    if limit != 0 && |ActiveJobs(db.jobs, b)| >= limit then WithStatus(db, j, QueuedForRun)
    else AfterTrigger(db, j)
  }

  predicate AllParentsSucceeded(db: Db, c: nat) {
    forall k :: 0 <= k < |db.links| && db.links[k].child == c ==>
                  db.links[k].parent < |db.jobs| && db.jobs[db.links[k].parent].status == Succeeded
  }

  function AfterChild(limit: int, db: Db, b: nat, c: nat): Db
    requires c < |db.jobs|
  {
    if AllParentsSucceeded(db, c) then AfterSchedule(limit, db, b, c) else db
  }

  // The parent a job waits for, in a table that links each job to one parent at most.
  function ParentOf(links: seq<LinkRow>, c: nat): Option<nat> {
    if links == [] then None
    else if links[|links| - 1].child == c then Some(links[|links| - 1].parent)
    else ParentOf(links[..|links| - 1], c)
  }

  // Created jobs of a batch that no link row names as a child.
  predicate IsPendingParent(db: Db, b: nat, j: nat)
    requires j < |db.jobs|
  {
    db.jobs[j].status == Created && db.jobs[j].batch == b && forall k :: 0 <= k < |db.links| ==> db.links[k].child != j
  }

  predicate AllSucceeded(jobs: seq<JobRow>, b: nat) {
    forall i :: 0 <= i < |jobs| && jobs[i].batch == b ==> jobs[i].status == Succeeded
  }

  predicate IsTerminal(status: BatchStatus) {
    status == BatchInvalidated || status == BatchFailed || status == BatchSucceeded
  }

  function AfterBatchUpdate(db: Db, b: nat): Db
    requires b < |db.batches|
  {
    if IsTerminal(db.batches[b].status) || !AllSucceeded(db.jobs, b) then db
    else db.(batches := db.batches[b := db.batches[b].(status := BatchSucceeded)])
  }

  function AfterAutomerge(db: Db, b: nat, allApplied: bool): Db
    requires b < |db.batches|
  {
    var row := db.batches[b];
    if row.status == BatchSucceeded && row.kind == ApplyBatch && allApplied && row.automerge
    then db.(merged := db.merged + [b])
    else db
  }

  // A worker's report: the job's status, then its batch's, then perhaps the merge of the PR.
  function AfterReport(db: Db, j: nat, status: JobStatus, allApplied: bool): Db
    requires j < |db.jobs| && db.jobs[j].batch < |db.batches|
  {
    var b := db.jobs[j].batch;
    AfterAutomerge(AfterBatchUpdate(WithStatus(db, j, status), b), b, allApplied)
  }

  // What the steps mean, row by row

  // Nothing but one job's status and perhaps the dispatches differ.
  ghost predicate OnlyJobChanged(db: Db, after: Db, j: nat, status: JobStatus)
    requires j < |db.jobs|
  {
    && |after.jobs| == |db.jobs| && after.jobs[j] == JobRow(db.jobs[j].batch, db.jobs[j].project, status)
    && (forall i :: 0 <= i < |db.jobs| && i != j ==> after.jobs[i] == db.jobs[i])
    && after.links == db.links
  }

  // A job is dispatched if and only if there is no limit or fewer jobs of its batch than the limit are triggered or
  // started; otherwise it is queued. A negative limit thus queues every job.
  lemma ScheduleMeans(limit: int, db: Db, b: nat, j: nat)
    requires j < |db.jobs|
    ensures var after := AfterSchedule(limit, db, b, j);
            var running := set i | 0 <= i < |db.jobs| && db.jobs[i].batch == b
                                   && (db.jobs[i].status == Triggered || db.jobs[i].status == Started);
            && after.batches == db.batches && after.merged == db.merged
            && if limit == 0 || |running| < limit
               then OnlyJobChanged(db, after, j, Triggered) && after.dispatched == db.dispatched + [j]
               else OnlyJobChanged(db, after, j, QueuedForRun) && after.dispatched == db.dispatched
  {
    assert ActiveJobs(db.jobs, b) == set i | 0 <= i < |db.jobs| && db.jobs[i].batch == b
                                     && (db.jobs[i].status == Triggered || db.jobs[i].status == Started);
  }

  // A report stores exactly the reported status; it marks the batch succeeded if that was the last success missing,
  // and merges if the batch is then a succeeded apply batch with automerge on and all impacted projects are applied.
  lemma ReportMeans(db: Db, j: nat, status: JobStatus, allApplied: bool)
    requires j < |db.jobs| && db.jobs[j].batch < |db.batches|
    ensures var b, after := db.jobs[j].batch, AfterReport(db, j, status, allApplied);
            var done := forall i ::
              0 <= i < |after.jobs| && after.jobs[i].batch == b ==> after.jobs[i].status == Succeeded;
            var was, now := db.batches[b], after.batches[b];
            && OnlyJobChanged(db, after, j, status) && after.dispatched == db.dispatched
            && |after.batches| == |db.batches|
            && (forall c :: 0 <= c < |db.batches| && c != b ==> after.batches[c] == db.batches[c])
            && now.kind == was.kind && now.automerge == was.automerge
            && now.status == (if was.status in {BatchCreated, BatchStarted} && done then BatchSucceeded else was.status)
            && after.merged == (if now == BatchRow(ApplyBatch, BatchSucceeded, true) && allApplied
                                then db.merged + [b] else db.merged)
  {
    var b, after := db.jobs[j].batch, AfterReport(db, j, status, allApplied);
    assert after.jobs == WithStatus(db, j, status).jobs;
    assert AllSucceeded(after.jobs, b) <==>
           forall i :: 0 <= i < |after.jobs| && after.jobs[i].batch == b ==> after.jobs[i].status == Succeeded;
  }

  // Links with distinct children

  ghost predicate DistinctChildren(links: seq<LinkRow>) {
    forall k, m :: 0 <= k < m < |links| ==> links[k].child != links[m].child
  }

  lemma {:induction false} ParentOfLink(links: seq<LinkRow>, c: nat)
    requires DistinctChildren(links)
    ensures match ParentOf(links, c)
            case None => forall k :: 0 <= k < |links| ==> links[k].child != c
            case Some(p) => (exists k :: 0 <= k < |links| && links[k] == LinkRow(p, c))
                            && forall k :: 0 <= k < |links| && links[k].child == c ==> links[k].parent == p
    decreases |links|
  {
    if links != [] {
      ParentOfLink(links[..|links| - 1], c);
    }
  }

  lemma {:induction false} ParentOfKept(links: seq<LinkRow>, more: seq<LinkRow>, c: nat)
    requires forall k :: 0 <= k < |more| ==> more[k].child != c
    ensures ParentOf(links + more, c) == ParentOf(links, c)
    decreases |more|
  {
    if more == [] {
      assert links + more == links;
    } else {
      assert (links + more)[..|links + more| - 1] == links + more[..|more| - 1];
      ParentOfKept(links, more[..|more| - 1], c);
    }
  }

  // A job's status change moves it alone in or out of the running jobs of its batch.
  lemma ActiveAfter(db: Db, j: nat, status: JobStatus, b: nat)
    requires j < |db.jobs|
    ensures var was, now := ActiveJobs(db.jobs, b), ActiveJobs(WithStatus(db, j, status).jobs, b);
            if db.jobs[j].batch != b || Running(status) == Running(db.jobs[j].status) then now == was
            else if Running(status) then j !in was && now == was + {j} && |now| == |was| + 1
            else now == was - {j} && |now| == |was| - 1
  {
    var was, now := ActiveJobs(db.jobs, b), ActiveJobs(WithStatus(db, j, status).jobs, b);
    forall i ensures i in now <==> if i == j && db.jobs[j].batch == b then Running(status) else i in was {}
    assert now - {j} == was - {j};
  }
}
