# Digger orchestration: a verified model

Digger runs Terraform jobs for pull requests. This project models the parts of it whose
correctness spans several functions, and proves what they promise over every input and every run.

**From dependency graph to scheduled runs.** A configuration's projects form a dependency graph
(`DependencyGraph`). For a pull request the graph is contracted to the impacted projects
(`Collapse`, `ContractionMeaning`, `ImpactedGraph`), walked breadth first from a dummy root
(`Traversal`), and each visited project gets one job row and a link to the job it waits for
(`JobCreation`). The rows (`Tables`) are then driven by the first dispatch, worker reports, completion
goroutines and a cron that retries queued jobs (`Backend`); `Scheduling` says what each step does to
the rows, `SchedulerMachine` puts the steps into one state machine in which the loops interleave, and the other
`Scheduler` modules prove what holds over its runs.

The contraction returns early at a vertex it has added before, so it keeps only the first parent
that reaches a vertex: its result is always a forest. Two facts follow. The forest is what makes the
traversal visit parents first, the per-parent loop create a single job, and one completion schedule
each child (`TwoParentsDispatchTwice` shows what a second parent link would do). And the order
between a project and the dependencies behind its dropped edges is lost: `OrderSurvivesIff` gives the
exact condition under which no iteration order of Go's maps loses any of it, `TwoDependenciesLoseOrder`
the smallest graph where one does, and `DependenciesHonouredIff` carries the condition over to the
scheduler: whenever an impacted project has two possible parents, some iteration order and some run
dispatch it before an impacted project it depends on has even started (`TwoSourcesOvertake`). Every other
claim about the contraction holds for every acyclic graph, every impacted set and every iteration order.

**Pull request locks.** `LockStore` has the map store and the row table that should behave like it,
`PullRequestLocks` the protocol with its recovery of locks left by closed pull requests,
`LockCommands` the loops over all impacted projects and the cleanup after an unlock, and
`LockMachine` all interleavings of these by any number of pull requests.

**Two smaller parts.** `InstallationLinks` is the table that links GitHub app installations to
organisations. `ModifiedProjects` selects the projects a list of changed files touches, over pattern
arrays that are normalised in place for every file; `PathNames` has the path functions it depends on.

Objects the source changes in place are classes here (graphs, tables, lock stores, pattern arrays);
each method is proved against a function of the old state, and the theorems are about those functions.
The graph library is modelled by its contract: adding a present vertex fails, adding a present edge or
one that closes a cycle fails, and the breadth-first search uses a queue and a visited set marked on
enqueue. Map iteration is a nondeterministic choice.

Assumptions of the scheduler's machine: database calls and workflow dispatch succeed; each call of
`ScheduleJob`, each child a completion handles and each worker report is one atomic step; job ids are
unique; every impacted project has a job specification (`ConversionPanics` says what happens
otherwise, and when); a worker reports a start at most once and then one result. Cron runs may overlap
in the machine, as nothing in the source keeps the next from starting while one still holds jobs it has
fetched. What survives that is in `SchedulerAnyRun`: the concurrency limit on job statuses, the guard of
each batch mark and each merge, and where a run ends. The rest has `NoOverlap` as a hypothesis, and the
hypothesis is exact: a cron start can lead to a second dispatch of a job if and only if another cron run
still holds one (`OverlapIff`).

Where the code does something its surroundings do not suggest, the model follows the code:

- The cleanup after an unlock selects resources with SQL `LIKE 'repo%'`. It also reaches a repository
  whose name merely starts with this one's (`CleanupReachesLongerNames`), and `_` in a repository name
  fits any character, the separator after a shorter name included (`CleanupReachesShorterNames`).
  `CleanupStaysInRepoIff` has the exact condition for every name without `%` and `#`, which GitHub does
  not allow in names.
- A negative concurrency limit is not "no limit": every job is queued and none ever runs
  (`LimitRespected`).
- A batch without jobs is never marked succeeded, as only worker reports update batches (`BatchVerdict`).
- Deleting an installation without an active link ends in an error: the blank row it tries to save has no
  organisation, which the foreign key at backend/migrations/20231227132525.sql:118 refuses
  (`HandleInstallationDeleted`).
- A job held by two overlapping cron runs can be dispatched twice, or go back to the queue while its
  workflow goes on (`OverlapCanDispatchTwice`, `RetryRequeuesRunning`).
- The row table lets a resource be locked twice; it stays a faithful map only because the protocol
  never does that (`LockRefinesIff`, `OneHolderEach`).

## Model

| member | source | states |
|---|---|---|
| Graphs.Searches | libs/digger_config/converters.go:384-384 | the search behind cycle prevention finds a path exactly when one exists |
| Graphs.WithEdgeKeepsDag | libs/digger_config/converters.go:384-384 | adding an edge to an acyclic graph is refused for a duplicate or a cycle, and otherwise leaves it acyclic |
| Graphs.ProjectGraph.AddVertex | libs/digger_config/converters.go:388-406 | adding a vertex fails exactly when it is present, and changes nothing then |
| Graphs.ProjectGraph.AddEdge | libs/digger_config/converters.go:409-412 | adding an edge gives the edge or the exact error, and the graph stays acyclic |
| DependencyGraph.CheckNames | libs/digger_config/converters.go:337-344 | rejects exactly the configurations with a repeated project name |
| DependencyGraph.CheckDependencies | libs/digger_config/converters.go:346-353 | rejects exactly the configurations with a dependency on an unknown project |
| DependencyGraph.CreateProjectDependencyGraph | libs/digger_config/converters.go:374-416 | on success the vertices are the project names and the edges the (dependency, project) pairs; a duplicate-edge error means a repeated dependency, a cycle error a cycle, and no other graph error occurs |
| DependencyGraph.ConvertDiggerYamlToConfig | libs/digger_config/converters.go:337-358 | loading succeeds if and only if names are unique, dependencies known, none listed twice and the relation acyclic; which error when |
| DependencyGraph.LoadableInAnyOrder | libs/digger_config/converters.go:374-416 | whether a configuration loads, and into which graph, does not depend on the order of its projects |
| DependencyGraph.EdgeStep | libs/digger_config/converters.go:394-413 | one more dependency extends the partial graph; a duplicate edge shows a repeated dependency, a refused cycle a cycle of the whole configuration |
| Collapse.CollapsedGrows | backend/utils/graphs.go:290-348 | a call of the contraction never fails, moves no vertex that hangs already, and hangs each new one from a vertex that was last impacted on some root path |
| Collapse.CollapsedCovers | backend/utils/graphs.go:299-303 | the early return never loses a descendant: after a call everything impacted below its vertex is in |
| Collapse.ContractionOfAnyWalk | backend/utils/graphs.go:250-348 | for any DAG, impacted set and iteration order: no error, vertices exactly the impacted ones, acyclic, each edge an original path, one parent at most and that a source |
| Collapse.HangingSucceeds | backend/utils/graphs.go:319-333 | the parent edge, added after the children, is neither a duplicate nor closes a cycle, and touches no other vertex's parent |
| ContractionMeaning.SourceIsNearestAncestor | backend/utils/graphs.go:290-348 | a possible parent is exactly an impacted vertex with an original path to the child that meets no impacted vertex in between |
| ContractionMeaning.ParentsAreSources | backend/utils/graphs.go:263-348 | over all iteration orders a vertex gets as parent (or as none) exactly its sources: nearest impacted ancestors, or none when a root path has no impacted vertex before it |
| ContractionMeaning.NoNewOrder | backend/utils/graphs.go:290-348 | the contraction never orders two projects that the dependency graph does not |
| ContractionMeaning.OrderSurvivesIff | backend/utils/graphs.go:299-333 | every iteration order preserves reachability between impacted projects if and only if no impacted project has two sources |
| ContractionMeaning.OneSourceKeepsOrder | backend/utils/graphs.go:290-348 | with one source each, u comes before v in the contraction exactly when it does in the dependency graph |
| ContractionMeaning.ForestKeepsOrder | backend/utils/graphs.go:290-348 | contracting a forest preserves reachability between impacted projects, both ways |
| ContractionMeaning.TwoDependenciesLoseOrder | backend/utils/graphs.go:299-303 | a project with two impacted dependencies: some iteration order drops one of them |
| ImpactedGraph.CollapsedGraph | backend/utils/graphs.go:290-348 | the recursive call terminates on any DAG and builds the specified contraction along the walk it took |
| ImpactedGraph.ImpactedProjectsOnlyGraph | backend/utils/graphs.go:250-288 | returns, without error, a contraction of the dependency graph to the impacted projects |
| JobCreation.JobBuilder.Visit | backend/utils/graphs.go:101-190 | the callback's effect on job rows, links and the result map, including its early returns and its panic |
| JobCreation.OneJobPerParent | backend/utils/graphs.go:145-186 | the per-parent loop creates one job per parent, each linked to its parent, and records the last: one job per project needs one parent per project |
| JobCreation.VisitsMatch | backend/utils/graphs.go:101-190 | as long as parents come first the rows mirror the projects visited so far, and the only panic is a parent without a job |
| JobCreation.OneJobPerProject | backend/utils/graphs.go:95-196 | the conversion panics if and only if some project with a job specification waits for one without; otherwise one job per project and links one-to-one with contracted edges |
| Traversal.AddDummyParent | backend/utils/graphs.go:207-237 | the dummy vertex gets an edge to each root, fails only when a project has its name, and the graph stays acyclic |
| Traversal.ExploredHoldsAll | backend/utils/graphs.go:238-245 | once the queue is empty every vertex of the graph has been enqueued |
| Traversal.WholeTraversal | backend/utils/graphs.go:206-248 | a finished search has met each vertex exactly once, all roots before any other, each other vertex after a predecessor |
| Traversal.BreadthFirst | backend/utils/graphs.go:238-245 | the search calls the callback in such an order, never for the dummy, up to its end or to a panic |
| Traversal.TraverseGraphVisitAllParentsFirst | backend/utils/graphs.go:206-248 | the same for the whole function, and nothing is visited when the dummy's name is taken |
| Scheduling.ActiveAfter | backend/models/storage.go:1340-1362 | a status change moves exactly its own job in or out of the running jobs of its batch |
| Scheduling.ParentOfLink | backend/models/storage.go:1446-1479 | with one link per child, the lookup gives the only parent, or none exactly when there is no link |
| SchedulerMachine.DispatchKeepsTokens | backend/controllers/github_helpers.go:199-238 | starting the first dispatch hands each parentless created job to exactly one pending activity |
| SchedulerMachine.CompletionKeepsTokens | backend/services/scheduler.go:24-66 | a completion hands each child of the job to exactly one pending activity |
| SchedulerMachine.CronKeepsTokens | backend/tasks/tasks.go:85-141 | a cron start hands each queued job to at most one pending activity, if no cron run holds one already |
| SchedulerSafety.ConversionAppends | backend/utils/graphs.go:95-196 | a conversion appends one created job per contracted project and one link per contracted edge, parents before children |
| SchedulerSafety.StepKeepsInv | backend/services/scheduler.go:15-169 | every step but an overlapping cron start keeps the whole invariant: tokens, jobs mirroring the contracted graph, dispatches, limit, batch verdicts |
| SchedulerSafety.RunKeepsInv | backend/services/scheduler.go:15-169 | the invariant holds in every state of every run whose cron runs do not overlap |
| SchedulerAnyRun.StepKeepsLooseInv | backend/services/scheduler.go:15-169 | every step, overlapping cron starts included, keeps the links, the jobs mirroring the contracted graph, the limit, and a pending activity for each created job whose turn has come |
| SchedulerAnyRun.LimitRespected | backend/services/scheduler.go:68-115 | in every run a batch never has more triggered or started jobs than a positive limit; with a negative limit nothing is ever dispatched |
| SchedulerAnyRun.StatusWasReported | backend/controllers/projects.go:674-957 | in every run a job is started, succeeded or failed only if a worker has reported that very status for it |
| SchedulerAnyRun.MarkedWhenAllSucceeded | backend/models/storage.go:927-961 | a step marks a batch succeeded only as a success report after which all its jobs have succeeded, and changes no terminal mark |
| SchedulerAnyRun.StepMerges | backend/controllers/projects.go:1507-1544 | a step merges only as a report with all impacted projects applied, for a succeeded apply batch with automerge on |
| SchedulerAnyRun.QuiescentIsFinished | backend/services/scheduler.go:15-115 | in every run, with nothing active, queued or pending each job has succeeded, failed or has a failed ancestor; without failures all have succeeded |
| SchedulerOverlap.OverlapIff | backend/tasks/tasks.go:85-141 | with a limit of 0 or more, a cron start can lead to a job dispatched twice if and only if another cron run still holds a job |
| SchedulerOverlap.OverlapCanDispatchTwice | backend/tasks/tasks.go:85-141 | from any such state, a run in which both cron runs dispatch the job they hold |
| SchedulerOverlap.RetryRequeuesRunning | backend/services/scheduler.go:68-115 | a stale turn sends a running job back to the queue when its batch is at the limit |
| SchedulerTheorems.DispatchedOnceAfterAncestors | backend/services/scheduler.go:15-66 | over runs without overlapping cron runs a job is dispatched only if it never was before, and when all jobs of projects above it in the contracted graph have succeeded |
| SchedulerTheorems.NeverDispatchedTwice | backend/services/scheduler.go:117-169 | over runs without overlapping cron runs no job occurs twice among the dispatched ones |
| SchedulerOrder.DispatchedAfterDependencies | backend/services/scheduler.go:24-66 | when no impacted project has two sources, every impacted project that a dispatched one depends on, however indirectly, has a job and it has succeeded |
| SchedulerOrder.TwoSourcesOvertake | backend/utils/graphs.go:299-333 | for a project with two sources some iteration order and some run dispatch it while an impacted project it depends on is as created |
| SchedulerOrder.DependenciesHonouredIff | backend/services/scheduler.go:24-66 | with a limit of 0 or more, all runs honour all dependencies for every iteration order if and only if no impacted project has two sources |
| SchedulerTheorems.TwoParentsDispatchTwice | backend/services/scheduler.go:24-66 | were a job linked to two parents, two completions would dispatch it twice |
| SchedulerTheorems.BatchVerdict | backend/models/storage.go:927-961 | over runs without overlapping cron runs a batch is marked succeeded exactly when it has jobs and all succeeded, and a terminal mark never changes |
| SchedulerTheorems.MergedWhenApplied | backend/controllers/projects.go:1507-1544 | over runs without overlapping cron runs a pull request is merged only by a report that completes an apply batch with automerge on and all impacted projects applied, once per batch |
| SchedulerTheorems.MergedIff | backend/controllers/projects.go:1507-1544 | over runs without overlapping cron runs a step merges a batch if and only if it is a success report, with all impacted projects applied, after which all jobs of this apply batch with automerge on have succeeded |
| SchedulerTheorems.TurnsUseTheLimit | backend/services/scheduler.go:68-115 | over such runs a turn dispatches its job if and only if the limit leaves room, and with a positive limit a turn that leaves its job queued leaves exactly that many jobs of the batch triggered or started |
| SchedulerProgress.StepLowersRank | backend/services/scheduler.go:15-115 | every step that changes anything, new batches excepted, lowers a natural number |
| SchedulerProgress.RunsAreBounded | backend/services/scheduler.go:15-115 | over runs without overlapping cron runs at most six effective steps per job and one per batch remain until a new batch arrives |
| SchedulerProgress.NeverStuck | backend/tasks/tasks.go:85-141 | with a limit of 0 or more, any state under the invariant that is not finished has an effective step, perhaps after a cron start that overlaps none |
| Backend.LoopIsARun | backend/services/scheduler.go:24-66 | a loop that is not interrupted is a run of the state machine with the same result |
| Backend.DispatchIsARun | backend/controllers/github_helpers.go:164-246 | what the first dispatch does to the tables, a run of the machine does |
| Backend.CompletionIsARun | backend/services/scheduler.go:15-66 | what a completion does to the tables, a run of the machine does |
| Backend.CronIsARun | backend/tasks/tasks.go:85-141 | what a cron run does to the tables, a run of the machine does |
| Backend.ConversionPanics | backend/utils/graphs.go:140-176 | a conversion panics exactly when an impacted project with a job specification waits for one without |
| Backend.ConversionMayPanicIff | backend/utils/graphs.go:140-176 | before the call: some iteration order makes the conversion panic if and only if some impacted project with a job specification has a source without one |
| Backend.ConversionIsANewBatch | backend/utils/graphs.go:17-204 | with a specification for each impacted project a conversion succeeds and is exactly a new batch of the machine |
| Backend.Database.ConvertJobsToDiggerJobs | backend/utils/graphs.go:17-204 | the batch row, the contraction along some walk, and the rows of an orderly traversal of it |
| Backend.Database.GetDiggerJobsForBatchWithStatus | backend/models/storage.go:1340-1362 | counts exactly the triggered and started jobs of the batch |
| Scheduling.ScheduleMeans | backend/services/scheduler.go:68-115 | on any table: the job is dispatched and triggered if and only if there is no limit or fewer jobs of the batch than the limit are triggered or started; otherwise it is queued and nothing dispatched; no other row changes |
| Scheduling.ReportMeans | backend/controllers/projects.go:674-1008 | on any table, for every status: the job's row gets exactly the reported status, no other job, link or dispatch changes, and when exactly the batch is marked and merged |
| Backend.CompletionMeans | backend/services/scheduler.go:24-66 | a completion triggers or queues exactly the job's created children all of whose parents have succeeded, and touches no other job |
| Backend.Database.ScheduleJob | backend/services/scheduler.go:68-115 | dispatches the job, or queues it exactly when the limit of triggered or started jobs of the batch is reached |
| Backend.Database.TriggerJob | backend/services/scheduler.go:117-169 | dispatches the workflow and marks the job triggered |
| Backend.Database.GetPendingParentDiggerJobs | backend/models/storage.go:1386-1412 | the created jobs of the batch that no link names as child |
| Backend.Database.TriggerDiggerJobs | backend/controllers/github_helpers.go:164-246 | schedules each of those once, in order |
| Backend.Database.DiggerJobCompleted | backend/services/scheduler.go:15-66 | schedules each child whose parents have all succeeded, in link order |
| Backend.Database.TriggerQueuedJobs | backend/tasks/tasks.go:85-162 | schedules each queued job once and counts them |
| Backend.Database.UpdateBatchStatus | backend/models/storage.go:927-961 | marks a non-terminal batch succeeded exactly when all its jobs have |
| Backend.Database.AutomergePRforBatchIfEnabled | backend/controllers/projects.go:1513-1544 | merges exactly for a succeeded apply batch with automerge on and all impacted projects applied |
| Backend.Database.SetJobStatusForProject | backend/controllers/projects.go:674-1008 | exactly the known status is stored, the batch is marked if this completes it and merged if it may be, and only a success starts a completion; an unexpected status changes nothing |
| LockStore.HoldersLookup | backend/models/storage.go:1867-1886 | the first-row query reads the map the table stands for |
| LockStore.UnlockRefines | backend/locking/backend_locking.go:22-30 | deleting a resource's rows is removing it from the map, on any table |
| LockStore.LockRefinesIff | backend/locking/backend_locking.go:14-20 | inserting a row is overwriting the map entry if and only if the resource is free or already the caller's |
| LockStore.LockKeepsOneRowEach | backend/models/storage.go:1834-1855 | inserting keeps one row per resource exactly when the resource was free |
| LockStore.MockLock.Lock | libs/locking/mock.go:7-13 | overwrites the entry of the map |
| LockStore.BackendDBLock.Unlock | backend/locking/backend_locking.go:22-30 | deletes all rows of the resource and no other |
| LockStore.BackendDBLock.GetLock | backend/locking/backend_locking.go:32-41 | the holder in the first row of the resource, or none |
| PullRequestLocks.LockIdInjective | libs/locking/locking.go:211-218 | resource names tell repository and project apart when repository names have no separator |
| PullRequestLocks.LockAttemptMeans | libs/locking/locking.go:50-143 | an attempt succeeds exactly when the resource is free, the caller's or a closed pull request's; then the caller holds it; other resources are untouched |
| PullRequestLocks.AcquireMeans | backend/locking/backend_locking.go:14-20 | an attempt that changes the table replaces the resource's rows by exactly the caller's, with the caller's organisation |
| PullRequestLocks.AcquireRefines | libs/locking/locking.go:50-143 | on a table with one row per resource the attempt on rows does what the attempt on the map does, and keeps one row per resource |
| PullRequestLocks.PullRequestLock.Lock | libs/locking/locking.go:50-94 | the attempt's outcome, errors included, and the new table |
| PullRequestLocks.PullRequestLock.VerifyNoHangingLocks | libs/locking/locking.go:110-143 | releases exactly a lock of another, closed pull request; otherwise changes nothing and reports the holder |
| PullRequestLocks.PullRequestLock.Unlock | libs/locking/locking.go:145-171 | releases exactly when the caller is the holder |
| PullRequestLocks.PullRequestLock.ForceUnlock | libs/locking/locking.go:187-209 | frees the resource whoever holds it, and no other |
| PullRequestLocks.LockOverMap | libs/locking/locking.go:50-143 | the protocol over the map store has the same outcomes as over the rows |
| PullRequestLocks.LockingExecutorWrapper.Execute | libs/execution/execution.go:33-72 | the inner operation happens exactly when the attempt succeeds, and the pull request is holder at that moment |
| LockCommands.LikeIsPrefix | backend/models/storage.go:1857-1865 | the cleanup's pattern means "begins with the repository's name, an underscore fitting any character", for every name without a percent sign |
| LockCommands.CleanedHolders | backend/models/storage.go:1857-1865 | the cleanup takes no lock from another pull request number and gives none |
| LockCommands.CleanupStaysInRepoIff | backend/models/storage.go:1857-1865 | for every repository name without '%' and '#': the cleanup deletes only locks of its own repository if and only if this number holds none on another repository's resource that begins like the name, underscores fitting any character |
| LockCommands.CleanupReachesLongerNames | backend/models/storage.go:1857-1865 | an unlock in one repository releases a lock of the same number in another with a longer name |
| LockCommands.CleanupReachesShorterNames | backend/models/storage.go:1857-1865 | an unlock in a repository with an underscore in its name releases a lock of the same number in one with a shorter name |
| LockCommands.DeleteAllLocksAcquiredByPR | backend/models/storage.go:1857-1865 | deletes exactly the rows of the number and organisation that match |
| LockCommands.PerformLockingActionFromCommand | libs/locking/utils.go:8-33 | plan, apply and lock, each, fail exactly when another pull request not known to be closed holds the project, and otherwise leave the caller holder; unlock releases only the caller's and never fails; other commands change nothing |
| LockCommands.PerformOnImpactedProjects | backend/controllers/github_pull_request.go:296-341 | a plan, apply or lock loop fails exactly when another pull request not known to be closed holds some impacted project, and otherwise the caller holds them all; after an unlock no row of the number under the repository's name remains; no holder whose pull request is not closed loses a lock to another |
| LockCommands.StepSparesOthers | backend/controllers/github_comment.go:411-456 | one project's command takes no lock from another open pull request and loses none the loop has acquired |
| LockMachine.OneHolderEach | backend/models/storage.go:1834-1886 | over all interleavings each resource has at most one row, hence one holder |
| LockMachine.HolderChanges | libs/locking/locking.go:50-209 | a holder loses a lock only to its own release or cleanup, to a force, or once closed to an acquisition; a lock is gained only by an acquisition; an acquisition succeeds exactly when allowed |
| LockMachine.StepsTakeEffect | libs/locking/locking.go:145-209 | the holder's release, any force and the holder's cleanup free the resource; closing and reopening a pull request changes no lock |
| LockMachine.OpenHolderKeeps | libs/locking/locking.go:50-209 | over any run a pull request that stays open keeps a lock until it releases it, cleans it up or somebody forces it |
| LockMachine.TableRefinesMap | libs/locking/mock.go:7-26 | over any run of lock operations the row table stands for the map the map store would hold |
| InstallationLinks.AlwaysOneToOne | backend/models/storage.go:633-708 | after any sequence of creations and deletions the active links are a partial one-to-one map |
| InstallationLinks.LastEvent | backend/models/storage.go:633-708 | what the last of any sequence of events changes, link by link |
| InstallationLinks.CreateMeans | backend/models/storage.go:633-675 | a creation that is not refused leaves exactly this link for its organisation and its installation, and all other organisations' links |
| InstallationLinks.InstallationTable.CreateGithubInstallationLink | backend/models/storage.go:633-675 | refused exactly when another organisation has the installation; keeps one active row per organisation and per installation |
| InstallationLinks.InstallationTable.HandleInstallationDeleted | backend/controllers/github_installation.go:9-26 | deactivates exactly the installation's active link; without one it fails and changes nothing |
| PathNames.JoinOfSplit | libs/digger_config/utils.go:19-26 | joining the segments of any string gives the string back |
| PathNames.UpCancels | libs/digger_config/utils.go:19-26 | a name followed by dot-dot vanishes with it, anywhere in a path |
| PathNames.UpTakesBack | libs/digger_config/utils.go:19-26 | normalising "name/../rest" is normalising "rest" |
| PathNames.DirMeans | libs/digger_config/digger_config.go:1009-1009 | the directory of a path is the canonical form of what precedes its last slash, and the dot without one |
| PathNames.DirOfFile | libs/digger_config/digger_config.go:1009-1009 | the directory of a file in a canonical relative directory is that directory |
| PathNames.ReduceOfReduced | libs/digger_config/utils.go:19-26 | reading reduced path segments again changes nothing |
| PathNames.CleanIdempotent | libs/digger_config/utils.go:19-26 | canonical form is final, for every path |
| PathNames.NormalizedForm | libs/digger_config/utils.go:19-26 | a normalised name is the absolute path of the name's own segments, reduced so that it never climbs above the root |
| PathNames.NormalizeIdempotent | libs/digger_config/utils.go:19-26 | normalising twice is normalising once, for every name |
| ModifiedProjects.VerdictMeans | libs/digger_config/utils.go:40-81 | with readable patterns a file matches exactly when some include pattern matches it and no exclude pattern does |
| ModifiedProjects.VerdictExactly | libs/digger_config/utils.go:40-81 | with any patterns: a panic exactly when the first decisive pattern of a list is malformed, a match exactly when an include decides and no exclude does |
| ModifiedProjects.PatternsMean | libs/digger_config/digger_config.go:976-995 | the configured patterns in order, joined to the project's directory exactly if they start with a dot, then the project's own pattern |
| ModifiedProjects.ScanMeans | libs/digger_config/utils.go:49-79 | a scan answers with the first pattern that does not say no, and says no exactly when all do |
| ModifiedProjects.NormalizedVerdict | libs/digger_config/utils.go:40-47 | patterns normalised for an earlier file answer as the original ones |
| ModifiedProjects.MatchIncludeExcludePatternsToFile | libs/digger_config/utils.go:40-81 | the verdict on the original patterns, and both arrays overwritten by their normal forms, even when they are one array |
| ModifiedProjects.SourceDirsMeans | libs/digger_config/digger_config.go:999-1018 | the source directories are exactly those of the touching files, without repeats |
| ModifiedProjects.FirstSightOrder | libs/digger_config/digger_config.go:1010-1016 | source directories are in the order of first sight |
| ModifiedProjects.ModifiedMeans | libs/digger_config/digger_config.go:964-1028 | the result holds every touched project once, in configuration order, and no other |
| ModifiedProjects.LocationsMeans | libs/digger_config/digger_config.go:1019-1021 | with unique names each project has its own entry, empty exactly when it is not modified |
| ModifiedProjects.SourceChanges | libs/digger_config/digger_config.go:997-1018 | reusing the overwritten pattern arrays for all files gives the answers of fresh ones |
| ModifiedProjects.GetModifiedProjects | libs/digger_config/digger_config.go:964-1028 | with readable patterns the selected projects are, in configuration order, those with a changed file that some include covers and no exclude does, and the locations are the directories of exactly these files; panics exactly when some file meets a malformed decisive pattern |

## Left out

- HTTP handlers, CI and VCS clients, comments, check runs, reports, AI summaries, logging and telemetry: input and output only.
- Encryption, tokens, policy evaluation: foreign libraries and authentication.
- GORM and SQL: a query is its filter over a finite table, soft deletion is deletion; database errors do not occur.
- Glob matching (doublestar) is an arbitrary function of pattern and name that may report a malformed pattern; terragrunt parsing and directory walking are not modelled.
- The graph library's own code is not part of this model; its contract is.
- Fields of rows, batches and jobs that no modelled decision reads (serialised jobs, check runs, URLs, tokens).
- Per-project planned and applied flags: whether all impacted projects are applied is an arbitrary boolean at each report.
- The run-queue state machine in backend/tasks/runs.go: its plan status and approval are constants, so most of it is unreachable.
- Races inside one scheduler or lock step, repeated or out-of-order worker reports and failed dispatches: outside the atomic-step machine.
- Worker reports of the statuses created and triggered: stored by `SetJobStatusForProject`, not sent by the machine's workers.
- Job ids are row indices instead of random strings: unique, never reused.
- The concurrency limit is the same number throughout a run; the source reads it from the environment at each call.
- Drift, plan footprints, billing, apply requirements, comment trimming, label sanitising and configuration defaults: correct to model but easy.
- The lock stores on AWS, GCP and Azure, and the store without locks: outside the row-table protocol.
- JobCreation.JobBuilder.Visit: writes to its own copy of the tables, which the conversion stores back; a conversion is one step for the machine.
- LockMachine.TableRefinesMap: runs without the cleanup, which the map store does not offer; HolderChanges and OpenHolderKeeps cover the cleanup.
- LockMachine.HolderChanges: repository names without '#', which GitHub does not allow in names.
- PullRequestLocks.LockingExecutorWrapper.Execute: the three wrapped operations are one method with the operation as argument; results of the inner executor are not modelled.
- LockCommands.PerformOnImpactedProjects: the loops for pull request events and for comments differ only in reporting and are one method.
