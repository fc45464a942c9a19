/** The rows the backend keeps for batches, jobs and the links from parent jobs to their children. */
module Tables {
  import opened Graphs

  datatype JobStatus = Created | Triggered | Failed | Started | Succeeded | QueuedForRun

  // A job's id is its index: ids are unique and never reused.
  datatype JobRow = JobRow(batch: nat, project: Name, status: JobStatus)

  datatype LinkRow = LinkRow(parent: nat, child: nat)

  datatype BatchType = PlanBatch | ApplyBatch | OtherBatch

  datatype BatchStatus = BatchCreated | BatchStarted | BatchFailed | BatchSucceeded | BatchInvalidated

  datatype BatchRow = BatchRow(kind: BatchType, status: BatchStatus, automerge: bool)

  // dispatched: the workflow runs requested from the CI backend; merged: the batches whose PR was merged.
  datatype Db = Db(
    jobs: seq<JobRow>,
    links: seq<LinkRow>,
    batches: seq<BatchRow>,
    dispatched: seq<nat>,
    merged: seq<nat>)
}
