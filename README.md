# Resource reindexing scheduler — a Dafny model

This project models the background reindexing scheduler of the HAPI FHIR JPA
server, `ResourceReindexingSvcImpl`. The scheduler keeps a small table of
reindex jobs. Each job covers a window of resource "last updated" timestamps:
`thresholdLow` is the cursor, and `thresholdHigh` is fixed at creation. A
scheduled or forced pass takes a process-local lock. It then expunges
soft-deleted jobs and runs at most ten active jobs. For each job it scans one
page of resources, runs one reindexing task per resource, and moves the job's
cursor from the dates those tasks return. When a page yields no date, the
pass deletes the job. When a task throws, it suspends the job table.

Files and modules:

- `jobstore.dfy`, module `JobStore`: the job record and the updates the job
  DAO makes to the table. Also the page of jobs a pass loads (`FindAll`), with
  lemmas about pages.
- `job_run.dfy`, module `ReindexJobRun`: one batch of `runReindexJob` as the job
  sees it. It holds the futures loop as a fold (`Collect`) and the rule that
  picks the new cursor (`NewThresholdLow`), with lemmas about both.
- `resource_index.dfy`, module `ResourceIndex`: the index rows a failed task
  purges: tags, seven search-parameter tables, and links in both directions.
  It also gives the outcome of one task (`Throws`, `TaskOutcome`, `Counted`,
  `MarksFailed`) and of a whole page of tasks (`RunTasks`), with lemmas.
- `reindexing_svc.dfy`, module `ReindexingSvc`: the classes.
  - `Counter` is the shared `AtomicInteger`.
  - `ResourceReindexingTask` holds the resource id it reindexes, the shared
    counter, and the updated date it read (`myUpdated`).
  - `ResourceReindexingSvcImpl` holds the job table, the id sequence, the
    index tables and the lock flag as fields.
  
  The methods use the source's loops. Each method is proved equal to a
  specification function on values: `RunJobSpec`, `RunJobsSpec`,
  `RunActiveJobsSpec`, `PassSpec`, `MarkAllSpec`, `CancelSpec` or `Expunged`.
- `reindexing_props.dfy`, module `ReindexingProps`: lemmas about those
  specification functions. They cover:
  - suspension, deletion, cursor advance and progress;
  - what a pass preserves, and that no cursor moves back;
  - marking for reindex, and cancelling.

Modelling choices:

- Time is an `int` of milliseconds. Each operation receives `now` as a
  parameter. A 5-minute window is 300000 and a 1-minute suspension is 60000.
- The resource table and the storage engine are one function parameter,
  `scan: ScanRequest -> seq<Candidate>`. For each scan request, it gives the
  resource ids found and what each id's task runs into (`Attempt`):
  - `RowMissing`: the row is missing, so the task throws (line 423).
  - `RowFound(updated, step)`: the row is found with an updated date (null
    allowed). Then one of five things happens:
    - `Reindexed`: the reindex goes through.
    - `ReindexThrew`: a failure inside the transaction is caught, and the
      resource is marked as failed.
    - `CommitConflict`: the reindex goes through and the commit raises a
      version conflict. The task swallows it (line 453).
    - `CommitFailed`: the reindex goes through and the commit raises any other
      exception. That exception escapes `call`, so the future throws.
    - `PurgeFailed`: a failure is caught, but `markResourceAsIndexingFailed`
      (line 467) fails in its own transaction. That transaction rolls back and
      the exception escapes `call`.
- The pool is sequential: each task runs when it is submitted. So the counter
  returned at line 292 counts every task of the page.
- The lock is a boolean field. `tryLock` fails when it is set. `lock()` in a
  forced pass is modelled as acquiring it.
- The resource query selects resources updated within the job's range (lines
  262-269). That the dates a task reads are at or after the range's low end is
  a hypothesis, `ReindexingProps.ScanHonoursLow`. The lemmas that rely on it
  say so.

Behaviour worth noting:

- A page whose tasks all caught a failure does not suspend the job. A task
  catches failures and still returns the resource's updated date (lines 424,
  447-451, 470). Only a future that throws suspends. That happens when:
  - the resource row is missing (line 423);
  - the commit raises an exception other than a version conflict (line 453
    catches only conflicts);
  - or marking the resource as failed raises one (line 467).
- A version conflict is swallowed only when the transaction template itself
  raises it (line 453). The inner `catch (Exception e)` at line 447 catches a
  conflict thrown inside the callback as an ordinary failure, which marks the
  resource as failed. By the time a conflict reaches line 453, `doReindex` has
  incremented the counter.
- `cancelAndPurgeAllJobs` soft-deletes every job but expunges only one page of
  ten (lines 219, 333-342). It does not remove every job (`CancelDeletesAll`).
- `setSuspendedUntil` at line 289 names no job, so it updates every row of the
  job table.
- A job whose page yields no date at all returns 0 (line 313), even when some
  of its tasks reindexed.
- `findAll(page, deleted)` has no visible ordering. The model takes the lowest
  ids first. Ids come from a sequence, so this is insertion order.

## Model

| member | source | states |
|---|---|---|
| `JobStore.IsBlank` | hapi-fhir-jpaserver-base/src/main/java/ca/uhn/fhir/jpa/search/reindex/ResourceReindexingSvcImpl.java:160-165 | `StringUtils.isBlank`: the type is null, empty, or only whitespace; a blank type means every resource type |
| `JobStore.NewJob` | hapi-fhir-jpaserver-base/src/main/java/ca/uhn/fhir/jpa/search/reindex/ResourceReindexingSvcImpl.java:168-171 | the job a marking inserts: the given type, a null cursor, `thresholdHigh` five minutes after now, not suspended, not deleted |
| `JobStore.PageFrom` | hapi-fhir-jpaserver-base/src/main/java/ca/uhn/fhir/jpa/search/reindex/ResourceReindexingSvcImpl.java:223-223 | the ids from `from` up to the sequence bound whose row has the requested deleted flag, lowest first, at most `limit` of them |
| `JobStore.FindAll` | hapi-fhir-jpaserver-base/src/main/java/ca/uhn/fhir/jpa/search/reindex/ResourceReindexingSvcImpl.java:335-335 | `findAll(PageRequest.of(0, limit), deleted)`: the page of `PageFrom` started at id 0 |
| `ReindexJobRun.CollectStep` | hapi-fhir-jpaserver-base/src/main/java/ca/uhn/fhir/jpa/search/reindex/ResourceReindexingSvcImpl.java:281-304 | one turn of the futures loop: a throwing future ends the loop; a null date changes nothing; a date becomes the latest when it is later, and sets `haveMultipleDates` when it differs from the latest so far |
| `ReindexJobRun.Collect` | hapi-fhir-jpaserver-base/src/main/java/ca/uhn/fhir/jpa/search/reindex/ResourceReindexingSvcImpl.java:279-305 | the futures loop over a page's futures in submission order, starting from a null latest date and no multiple dates |
| `ReindexJobRun.NewThresholdLow` | hapi-fhir-jpaserver-base/src/main/java/ca/uhn/fhir/jpa/search/reindex/ResourceReindexingSvcImpl.java:315-322 | the new cursor: latest + 1 when the latest date equals the old cursor or when the dates did not vary; otherwise the latest date itself |
| `JobStore.MarkAllOfTypeAsDeleted` | hapi-fhir-jpaserver-base/src/main/java/ca/uhn/fhir/jpa/search/reindex/ResourceReindexingSvcImpl.java:160-162 | soft-deleting the jobs of one type keeps every row of the table |
| `JobStore.MarkAllAsDeleted` | hapi-fhir-jpaserver-base/src/main/java/ca/uhn/fhir/jpa/search/reindex/ResourceReindexingSvcImpl.java:163-165 | soft-deleting every job keeps every row of the table |
| `JobStore.MarkAsDeletedById` | hapi-fhir-jpaserver-base/src/main/java/ca/uhn/fhir/jpa/search/reindex/ResourceReindexingSvcImpl.java:239-244 | setting one job's deleted flag removes no row |
| `JobStore.SetThresholdLow` | hapi-fhir-jpaserver-base/src/main/java/ca/uhn/fhir/jpa/search/reindex/ResourceReindexingSvcImpl.java:324-327 | writing one job's cursor removes no row |
| `JobStore.SetSuspendedUntil` | hapi-fhir-jpaserver-base/src/main/java/ca/uhn/fhir/jpa/search/reindex/ResourceReindexingSvcImpl.java:287-291 | the id-less suspension update keeps every row |
| `JobStore.PageFromSpec` | hapi-fhir-jpaserver-base/src/main/java/ca/uhn/fhir/jpa/search/reindex/ResourceReindexingSvcImpl.java:223 | a page of jobs holds at most `limit` distinct ids, all with the requested deleted flag, in ascending order; an id left out is newer than all taken and only when the page is full |
| `JobStore.FindAllSpec` | hapi-fhir-jpaserver-base/src/main/java/ca/uhn/fhir/jpa/search/reindex/ResourceReindexingSvcImpl.java:335 | over a table whose ids are below the sequence bound, a page that is not full holds every job with the requested flag |
| `ReindexJobRun.CollectMeaning` | hapi-fhir-jpaserver-base/src/main/java/ca/uhn/fhir/jpa/search/reindex/ResourceReindexingSvcImpl.java:279-305 | the futures loop leaves early exactly when some future threw; otherwise `latestDate` is null iff no future gave a date, is the maximum date when one did, and `haveMultipleDates` holds iff the dates are not all equal |
| `ReindexJobRun.CursorRule` | hapi-fhir-jpaserver-base/src/main/java/ca/uhn/fhir/jpa/search/reindex/ResourceReindexingSvcImpl.java:310-322 | with all dates equal to T other than the cursor, the new cursor is T+1; with varying dates whose maximum is not the cursor, it is that maximum exactly; when the maximum equals the cursor, it is cursor+1 |
| `ReindexJobRun.CursorProgress` | hapi-fhir-jpaserver-base/src/main/java/ca/uhn/fhir/jpa/search/reindex/ResourceReindexingSvcImpl.java:315-322 | when every date is at or after the cursor, the new cursor is strictly greater; when every date is before `thresholdHigh`, it is at most `thresholdHigh` |
| `ReindexJobRun.VaryingDatesKeepLatest` | hapi-fhir-jpaserver-base/src/main/java/ca/uhn/fhir/jpa/search/reindex/ResourceReindexingSvcImpl.java:295-322 | dates T0+1, T0+1, T0+2 from a null cursor give the new cursor T0+2 |
| `ReindexJobRun.EqualDatesStepPast` | hapi-fhir-jpaserver-base/src/main/java/ca/uhn/fhir/jpa/search/reindex/ResourceReindexingSvcImpl.java:295-322 | dates T0, T0 from a null cursor give the new cursor T0+1 |
| `ResourceIndex.PurgeResource` | hapi-fhir-jpaserver-base/src/main/java/ca/uhn/fhir/jpa/search/reindex/ResourceReindexingSvcImpl.java:344-395 | `markResourceAsIndexingFailed` as one update: the status becomes failed, and every tag, search-param row and link from or to the resource is removed |
| `ResourceIndex.Throws` | hapi-fhir-jpaserver-base/src/main/java/ca/uhn/fhir/jpa/search/reindex/ResourceReindexingSvcImpl.java:418-462 | a task's future throws when its row is missing (line 423), or when the commit or the purge raises an exception that line 453 does not catch |
| `ResourceIndex.Counted` | hapi-fhir-jpaserver-base/src/main/java/ca/uhn/fhir/jpa/search/reindex/ResourceReindexingSvcImpl.java:409-416 | the shared counter is incremented exactly when `dao.reindex` returned, whether or not the commit then succeeds |
| `ResourceIndex.MarksFailed` | hapi-fhir-jpaserver-base/src/main/java/ca/uhn/fhir/jpa/search/reindex/ResourceReindexingSvcImpl.java:447-468 | a caught failure leads to `markResourceAsIndexingFailed` (unless that purge itself fails) |
| `ResourceIndex.TaskOutcome` | hapi-fhir-jpaserver-base/src/main/java/ca/uhn/fhir/jpa/search/reindex/ResourceReindexingSvcImpl.java:418-471 | what `Future.get()` gives: an exception when the task throws, otherwise the updated date the task read, possibly null |
| `ResourceIndex.RunTasks` | hapi-fhir-jpaserver-base/src/main/java/ca/uhn/fhir/jpa/search/reindex/ResourceReindexingSvcImpl.java:273-277 | every task of a scanned page run in submission order, with the futures it yields, the index it leaves, and the counter |
| `ResourceIndex.PurgeResourceSpec` | hapi-fhir-jpaserver-base/src/main/java/ca/uhn/fhir/jpa/search/reindex/ResourceReindexingSvcImpl.java:344-395 | after marking a resource failed, no tag, search-param or link row refers to it, rows and links of other resources are unchanged, its status is failed if it has a row, and repeating the purge changes nothing |
| `ResourceIndex.RunTasksFutures` | hapi-fhir-jpaserver-base/src/main/java/ca/uhn/fhir/jpa/search/reindex/ResourceReindexingSvcImpl.java:274-277 | a page yields one future per scanned id, in order, each giving what that task returned or threw |
| `ResourceIndex.RunTasksThrows` | hapi-fhir-jpaserver-base/src/main/java/ca/uhn/fhir/jpa/search/reindex/ResourceReindexingSvcImpl.java:418-462 | some future of a page throws iff some task of the page throws: a missing row, or an exception from the commit or the purge that line 453 does not catch |
| `ResourceIndex.RunTasksDates` | hapi-fhir-jpaserver-base/src/main/java/ca/uhn/fhir/jpa/search/reindex/ResourceReindexingSvcImpl.java:424-470 | the dates the futures give are the updated dates read by the tasks that did not throw, whatever became of their reindex |
| `ResourceIndex.RunTasksCount` | hapi-fhir-jpaserver-base/src/main/java/ca/uhn/fhir/jpa/search/reindex/ResourceReindexingSvcImpl.java:409-416 | the shared counter ends at the number of tasks whose reindex call returned |
| `ResourceIndex.RunTasksIndex` | hapi-fhir-jpaserver-base/src/main/java/ca/uhn/fhir/jpa/search/reindex/ResourceReindexingSvcImpl.java:453-468 | running a page removes the rows and links of exactly the resources whose task failed other than by a version conflict, and flags only those as failed |
| `ReindexingSvc.ScanRequestFor` | hapi-fhir-jpaserver-base/src/main/java/ca/uhn/fhir/jpa/search/reindex/ResourceReindexingSvcImpl.java:257-269 | the scan of one job: 10000 ids, the job's type unless blank, from its cursor (0 while null) up to `thresholdHigh` |
| `ReindexingSvc.IsSuspended` | hapi-fhir-jpaserver-base/src/main/java/ca/uhn/fhir/jpa/search/reindex/ResourceReindexingSvcImpl.java:247-251 | a job is skipped while its `suspendedUntil` is set and later than now |
| `ReindexingSvc.RunJobSpec` | hapi-fhir-jpaserver-base/src/main/java/ca/uhn/fhir/jpa/search/reindex/ResourceReindexingSvcImpl.java:246-331 | one job's batch: skip when suspended; else run the page's tasks, then suspend every row when a future threw, delete the job when no date came back, or write the new cursor |
| `ReindexingSvc.JobTurnSpec` | hapi-fhir-jpaserver-base/src/main/java/ca/uhn/fhir/jpa/search/reindex/ResourceReindexingSvcImpl.java:229-234 | one turn of the job loop: a job whose `thresholdHigh` is before now is soft-deleted and counts 0, any other is run |
| `ReindexingSvc.RunJobsSpec` | hapi-fhir-jpaserver-base/src/main/java/ca/uhn/fhir/jpa/search/reindex/ResourceReindexingSvcImpl.java:226-236 | the job loop over the loaded rows in page order, summing the counts |
| `ReindexingSvc.Expunged` | hapi-fhir-jpaserver-base/src/main/java/ca/uhn/fhir/jpa/search/reindex/ResourceReindexingSvcImpl.java:333-342 | the table without the ids of one page of at most ten soft-deleted jobs |
| `ReindexingSvc.RunActiveJobsSpec` | hapi-fhir-jpaserver-base/src/main/java/ca/uhn/fhir/jpa/search/reindex/ResourceReindexingSvcImpl.java:222-237 | loads one page of at most ten active jobs and runs the job loop over them |
| `ReindexingSvc.PassSpec` | hapi-fhir-jpaserver-base/src/main/java/ca/uhn/fhir/jpa/search/reindex/ResourceReindexingSvcImpl.java:193-196 | a pass: expunge one page of deleted jobs, then run one page of active jobs |
| `ReindexingSvc.MarkAllSpec` | hapi-fhir-jpaserver-base/src/main/java/ca/uhn/fhir/jpa/search/reindex/ResourceReindexingSvcImpl.java:156-174 | marking: soft-delete the jobs of the type (all jobs when the type is blank), then insert `NewJob` under the next id |
| `ReindexingSvc.CancelSpec` | hapi-fhir-jpaserver-base/src/main/java/ca/uhn/fhir/jpa/search/reindex/ResourceReindexingSvcImpl.java:208-220 | cancelling: soft-delete every job, then expunge one page |
| `ReindexingSvc.ResourceReindexingTask.Call` | hapi-fhir-jpaserver-base/src/main/java/ca/uhn/fhir/jpa/search/reindex/ResourceReindexingSvcImpl.java:418-471 | the task throws on a missing row, a failed commit or a failed purge, and otherwise returns the updated date it read; it records that date in `updated`, increments the counter iff the reindex returned, and purges the resource iff a caught failure was marked |
| `ReindexingSvc.ResourceReindexingTask.DoReindex` | hapi-fhir-jpaserver-base/src/main/java/ca/uhn/fhir/jpa/search/reindex/ResourceReindexingSvcImpl.java:409-416 | a returned reindex increments the shared counter by one |
| `ReindexingSvc.Counter.IncrementAndGet` | hapi-fhir-jpaserver-base/src/main/java/ca/uhn/fhir/jpa/search/reindex/ResourceReindexingSvcImpl.java:415 | the counter grows by one and the new value is returned |
| `ReindexingSvc.ResourceReindexingSvcImpl.MarkAllResourcesForReindexing` | hapi-fhir-jpaserver-base/src/main/java/ca/uhn/fhir/jpa/search/reindex/ResourceReindexingSvcImpl.java:150-154 | the untyped call soft-deletes every job and inserts one new job |
| `ReindexingSvc.ResourceReindexingSvcImpl.MarkAllResourcesForReindexingOfType` | hapi-fhir-jpaserver-base/src/main/java/ca/uhn/fhir/jpa/search/reindex/ResourceReindexingSvcImpl.java:156-174 | the table becomes `MarkAllSpec`: the jobs in scope are soft-deleted and a new job is inserted under the next id |
| `ReindexingSvc.ResourceReindexingSvcImpl.RunReindexingPass` | hapi-fhir-jpaserver-base/src/main/java/ca/uhn/fhir/jpa/search/reindex/ResourceReindexingSvcImpl.java:176-191 | when scheduling is disabled or the lock is held, returns null and changes nothing; otherwise returns the count of `PassSpec` and leaves its state; the lock ends as it began |
| `ReindexingSvc.ResourceReindexingSvcImpl.DoReindexingPassInsideLock` | hapi-fhir-jpaserver-base/src/main/java/ca/uhn/fhir/jpa/search/reindex/ResourceReindexingSvcImpl.java:193-196 | holding the lock, expunges and then runs the active jobs, exactly as `PassSpec` |
| `ReindexingSvc.ResourceReindexingSvcImpl.ForceReindexingPass` | hapi-fhir-jpaserver-base/src/main/java/ca/uhn/fhir/jpa/search/reindex/ResourceReindexingSvcImpl.java:198-206 | always runs the pass of `PassSpec` and releases the lock |
| `ReindexingSvc.ResourceReindexingSvcImpl.CancelAndPurgeAllJobs` | hapi-fhir-jpaserver-base/src/main/java/ca/uhn/fhir/jpa/search/reindex/ResourceReindexingSvcImpl.java:208-220 | the table becomes `CancelSpec`: every job soft-deleted, then one page expunged |
| `ReindexingSvc.ResourceReindexingSvcImpl.RunReindexJobs` | hapi-fhir-jpaserver-base/src/main/java/ca/uhn/fhir/jpa/search/reindex/ResourceReindexingSvcImpl.java:222-237 | loads one page of active jobs and runs the job loop over the loaded rows, summing the counts, exactly as `RunActiveJobsSpec` |
| `ReindexingSvc.ResourceReindexingSvcImpl.RunJobTurn` | hapi-fhir-jpaserver-base/src/main/java/ca/uhn/fhir/jpa/search/reindex/ResourceReindexingSvcImpl.java:229-234 | a loaded job past its upper threshold is soft-deleted, any other is run |
| `ReindexingSvc.ResourceReindexingSvcImpl.MarkJobAsDeleted` | hapi-fhir-jpaserver-base/src/main/java/ca/uhn/fhir/jpa/search/reindex/ResourceReindexingSvcImpl.java:239-244 | sets the deleted flag of one job by id |
| `ReindexingSvc.ResourceReindexingSvcImpl.SubmitTasks` | hapi-fhir-jpaserver-base/src/main/java/ca/uhn/fhir/jpa/search/reindex/ResourceReindexingSvcImpl.java:255-277 | one task per scanned id with a fresh shared counter; futures, counter and index are those of `RunTasks` |
| `ReindexingSvc.ResourceReindexingSvcImpl.RunReindexJob` | hapi-fhir-jpaserver-base/src/main/java/ca/uhn/fhir/jpa/search/reindex/ResourceReindexingSvcImpl.java:246-331 | the job table, index and returned count are exactly those of `RunJobSpec` for the loaded job row |
| `ReindexingSvc.ResourceReindexingSvcImpl.ExpungeJobsMarkedAsDeleted` | hapi-fhir-jpaserver-base/src/main/java/ca/uhn/fhir/jpa/search/reindex/ResourceReindexingSvcImpl.java:333-342 | removes the rows of one page of soft-deleted jobs and no other |
| `ReindexingSvc.ResourceReindexingSvcImpl.MarkResourceAsIndexingFailed` | hapi-fhir-jpaserver-base/src/main/java/ca/uhn/fhir/jpa/search/reindex/ResourceReindexingSvcImpl.java:344-395 | after the ten statements the index is `PurgeResource` of the old one |
| `ReindexingProps.ScanRange` | hapi-fhir-jpaserver-base/src/main/java/ca/uhn/fhir/jpa/search/reindex/ResourceReindexingSvcImpl.java:257-269 | a null cursor scans from time 0, the scan ends at `thresholdHigh`, takes 10000 ids, and filters by type iff the type is not blank |
| `ReindexingProps.SuspendedJobIsSkipped` | hapi-fhir-jpaserver-base/src/main/java/ca/uhn/fhir/jpa/search/reindex/ResourceReindexingSvcImpl.java:247-251 | a job suspended beyond now is not scanned, changes nothing and counts 0 |
| `ReindexingProps.JobSuspendedOnThrow` | hapi-fhir-jpaserver-base/src/main/java/ca/uhn/fhir/jpa/search/reindex/ResourceReindexingSvcImpl.java:281-293 | when some task of the page throws, every job is suspended until now + 1 minute, no cursor or deleted flag changes, and the job counts its successful reindexes |
| `ReindexingProps.JobDeletedWhenNoDates` | hapi-fhir-jpaserver-base/src/main/java/ca/uhn/fhir/jpa/search/reindex/ResourceReindexingSvcImpl.java:310-314 | a page that yields no date, an empty page included, soft-deletes the job, writes no cursor and counts 0 |
| `ReindexingProps.JobCursorAdvances` | hapi-fhir-jpaserver-base/src/main/java/ca/uhn/fhir/jpa/search/reindex/ResourceReindexingSvcImpl.java:295-330 | a page in which no task throws and whose latest updated date is m writes the cursor chosen by the rule from the old cursor, m and whether the dates vary, and counts the successful reindexes |
| `ReindexingProps.JobCursorProgress` | hapi-fhir-jpaserver-base/src/main/java/ca/uhn/fhir/jpa/search/reindex/ResourceReindexingSvcImpl.java:315-327 | when the returned dates lie in the job's scan range, the written cursor is strictly after the old one and at most `thresholdHigh` |
| `ReindexingProps.ExpiredJobIsDeleted` | hapi-fhir-jpaserver-base/src/main/java/ca/uhn/fhir/jpa/search/reindex/ResourceReindexingSvcImpl.java:229-232 | a job whose `thresholdHigh` is before now is soft-deleted and not run |
| `ReindexingProps.JobTurnKeeps` | hapi-fhir-jpaserver-base/src/main/java/ca/uhn/fhir/jpa/search/reindex/ResourceReindexingSvcImpl.java:229-234 | one turn of the job loop keeps every row, every upper threshold and type, keeps deleted jobs deleted, and changes no other job's cursor or deleted flag |
| `ReindexingProps.RunJobsKeeps` | hapi-fhir-jpaserver-base/src/main/java/ca/uhn/fhir/jpa/search/reindex/ResourceReindexingSvcImpl.java:222-237 | the job loop deletes no row, never changes an upper threshold or type, never revives a deleted job, changes cursor and deleted flag only of loaded jobs, and counts nothing negative |
| `ReindexingProps.PassExpungesThenRunsActive` | hapi-fhir-jpaserver-base/src/main/java/ca/uhn/fhir/jpa/search/reindex/ResourceReindexingSvcImpl.java:193-237 | a pass removes exactly one page of at most ten soft-deleted jobs; the only jobs whose cursor or deleted flag changes are those of the one page of at most ten active jobs it loaded |
| `ReindexingProps.JobTurnCursorsNotBehind` | hapi-fhir-jpaserver-base/src/main/java/ca/uhn/fhir/jpa/search/reindex/ResourceReindexingSvcImpl.java:310-327 | when the scan honours its low end, one turn of the job loop moves no job's cursor back: the new cursor is at least the latest date, which is at least the old cursor |
| `ReindexingProps.RunJobsCursorsNotBehind` | hapi-fhir-jpaserver-base/src/main/java/ca/uhn/fhir/jpa/search/reindex/ResourceReindexingSvcImpl.java:222-237 | when the scan honours its low end, the job loop over distinct loaded jobs moves no job's cursor back |
| `ReindexingProps.PassCursorsNotBehind` | hapi-fhir-jpaserver-base/src/main/java/ca/uhn/fhir/jpa/search/reindex/ResourceReindexingSvcImpl.java:193-196 | when the scan honours its low end, no job that survives a pass has a cursor earlier than before it |
| `ReindexingProps.MarkAllLeavesOneActiveJob` | hapi-fhir-jpaserver-base/src/main/java/ca/uhn/fhir/jpa/search/reindex/ResourceReindexingSvcImpl.java:156-174 | marking soft-deletes exactly the jobs in scope, changes nothing else about them, and adds a job with a null cursor and `thresholdHigh` = now + 5 minutes that is the only active job of its scope |
| `ReindexingProps.CancelDeletesAll` | hapi-fhir-jpaserver-base/src/main/java/ca/uhn/fhir/jpa/search/reindex/ResourceReindexingSvcImpl.java:208-220 | after cancelling every remaining job is soft-deleted and no pass loads any of them; ten or fewer jobs leave an empty table, more lose exactly ten |

## Left out

- The thread pool (`ThreadPoolExecutor`, `BlockPolicy`, the 100-slot queue) and its shutdown and re-creation in `cancelAndPurgeAllJobs`. Tasks run one after another at submission. Concurrency is out of scope.
- `ReentrantLock` as a real lock, threads and reentrancy. The lock is a held flag. A forced pass is modelled from the moment it holds the lock.
- Spring transactions, `setRollbackOnly` and `PROPAGATION_REQUIRES_NEW`. Each transaction block is one atomic update of the model's tables.
- `dao.reindex`, `dao.toResource`, `DaoRegistry` and `FhirContext` lookups. These are foreign calls. Their outcome is the `Attempt` of each candidate, and what a successful reindex writes to the index is not modelled.
- The legacy forced-id normalisation (lines 430-436). It is a side effect on a foreign entity.
- The query text of the job and resource-table DAOs. The resource scan, with its range bounds and oldest-first order, is the `scan` parameter. The model does not check that a scan respects its page size or range. The lemmas that need the range (`JobCursorProgress` and the three `CursorsNotBehind` lemmas) take it as a hypothesis.
- Exceptions the coordinator lets escape (`Validate.notNull`, `assert jobs != null`, `deleteById` of a missing id). None of them can occur in the model.
- Logging, `StopWatch` and `DateUtils`. The clock is the `now` parameter, one value per operation, where the code reads the clock several times.
- `JobStore.IsWhitespace`: covers the characters below U+0080 for `StringUtils.isBlank`. Other Unicode whitespace is not modelled.
- The `int` counters. They are unbounded integers. A pass counts at most 10 × 10000 resources, so 32-bit overflow cannot occur.
