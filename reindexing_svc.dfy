/** `ResourceReindexingSvcImpl`: the service that owns the reindex-job table,
    runs locked reindexing passes over it, and hands each scanned resource to a
    reindexing task. The state it changes in place is a class; what a pass does
    to that state is also given as functions on values (`RunJobSpec`,
    `RunJobsSpec`, `PassSpec`), and the methods are proved to do exactly that. */
module ReindexingSvc {
  import opened JobStore
  import opened ReindexJobRun
  import opened ResourceIndex

  /** The arguments of `findIdsOfResourcesWithinUpdatedRangeOrderedFromOldest`:
      page size, type filter (absent when the job's type is blank), and the
      updated-date range. */
  datatype ScanRequest = ScanRequest(pageSize: nat, resourceType: Option<string>, low: Millis, high: Millis)

  /** The resource table and the storage engine, seen from the scheduler: for
      each scan, the ids found and what each one's task will run into. */
  type Scanner = ScanRequest -> seq<Candidate>

  /** The scan of one job: from its cursor (the epoch while the cursor is
      null) up to its fixed upper threshold. */
  function ScanRequestFor(job: Job): ScanRequest {
    ScanRequest(
      ScanPageSize,
      if IsBlank(job.resourceType) then None else job.resourceType,
      job.thresholdLow.GetOr(BeginningOfTime),
      job.thresholdHigh)
  }

  predicate IsSuspended(job: Job, now: Millis) {
    job.suspendedUntil.Some? && job.suspendedUntil.value > now
  }

  /** The two tables a pass changes. */
  datatype World = World(jobs: map<JobId, Job>, index: Index)

  /** A world after some work, and how many resources that work reindexed. */
  datatype Outcome = Outcome(world: World, count: int)

  /** `runReindexJob`: one job's batch, from the job row as it was loaded. */
  function RunJobSpec(w: World, id: JobId, job: Job, now: Millis, scan: Scanner): Outcome {
    if IsSuspended(job, now) then Outcome(w, 0)
    else
      var req := ScanRequestFor(job);
      var run := RunTasks(w.index, scan(req));
      match Collect(run.results)
      case Aborted =>
        Outcome(World(SetSuspendedUntil(w.jobs, now + SuspendMillis), run.index), run.successes)
      case Gathered(latest, multiple) =>
        if latest.None? then Outcome(World(MarkAsDeletedById(w.jobs, id), run.index), 0)
        else Outcome(World(SetThresholdLow(w.jobs, id, NewThresholdLow(req.low, latest.value, multiple)), run.index), run.successes)
  }

  /** One turn of the job loop of `runReindexJobs`: a job past its upper
      threshold is deleted instead of run. */
  function JobTurnSpec(w: World, id: JobId, job: Job, now: Millis, scan: Scanner): Outcome {
    if job.thresholdHigh < now then Outcome(World(MarkAsDeletedById(w.jobs, id), w.index), 0)
    else RunJobSpec(w, id, job, now, scan)
  }

  /** The job loop of `runReindexJobs` over the loaded rows `loaded`. */
  function RunJobsSpec(w: World, loaded: map<JobId, Job>, page: seq<JobId>, now: Millis, scan: Scanner): Outcome
    requires forall i :: 0 <= i < |page| ==> page[i] in loaded
    decreases |page|
  {
    if page == [] then Outcome(w, 0)
    else
      var prev := RunJobsSpec(w, loaded, page[..|page| - 1], now, scan);
      var id := page[|page| - 1];
      var turn := JobTurnSpec(prev.world, id, loaded[id], now, scan);
      Outcome(turn.world, prev.count + turn.count)
  }

  /** One more turn of the job loop. */
  lemma RunJobsSpecSnoc(w: World, loaded: map<JobId, Job>, page: seq<JobId>, i: nat, now: Millis, scan: Scanner)
    requires i < |page|
    requires forall j :: 0 <= j < |page| ==> page[j] in loaded
    ensures var prev := RunJobsSpec(w, loaded, page[..i], now, scan);
      var turn := JobTurnSpec(prev.world, page[i], loaded[page[i]], now, scan);
      RunJobsSpec(w, loaded, page[..i + 1], now, scan) == Outcome(turn.world, prev.count + turn.count)
  {
    assert page[..i + 1][..i] == page[..i];
  }

  /** `expungeJobsMarkedAsDeleted`: one page of soft-deleted jobs is removed. */
  function Expunged(jobs: map<JobId, Job>, bound: nat): map<JobId, Job> {
    jobs - Ids(FindAll(jobs, true, bound, JobPageSize))
  }

  /** `runReindexJobs`: one page of active jobs is loaded and run in order. */
  function RunActiveJobsSpec(w: World, bound: nat, now: Millis, scan: Scanner): Outcome {
    var page := FindAll(w.jobs, false, bound, JobPageSize);
    PageFromSpec(w.jobs, false, 0, bound, JobPageSize);
    RunJobsSpec(w, w.jobs, page, now, scan)
  }

  /** `doReindexingPassInsideLock`: expunge, then run one page of active jobs. */
  function PassSpec(w: World, bound: nat, now: Millis, scan: Scanner): Outcome {
    RunActiveJobsSpec(World(Expunged(w.jobs, bound), w.index), bound, now, scan)
  }

  /** `markAllResourcesForReindexing(type)`: the jobs of the scope are
      soft-deleted and a fresh job is inserted under id `nextId`. */
  function MarkAllSpec(jobs: map<JobId, Job>, nextId: JobId, theType: Option<string>, now: Millis): map<JobId, Job> {
    var marked := if !IsBlank(theType) then MarkAllOfTypeAsDeleted(jobs, theType.value) else MarkAllAsDeleted(jobs);
    marked[nextId := NewJob(theType, now)]
  }

  /** `cancelAndPurgeAllJobs`: every job soft-deleted, then one page expunged. */
  function CancelSpec(jobs: map<JobId, Job>, bound: nat): map<JobId, Job> {
    Expunged(MarkAllAsDeleted(jobs), bound)
  }

  // ---------------------------------------------------------------------------
  // The objects.

  /** The `AtomicInteger` a job's tasks share. */
  class Counter {
    var value: nat

    constructor()
      ensures value == 0
    {
      value := 0;
    }

    method IncrementAndGet() returns (v: nat)
      modifies this
      ensures value == old(value) + 1 && v == value
    {
      value := value + 1;
      v := value;
    }
  }

  /** `ResourceReindexingTask`: reindexes one resource of a scanned page. */
  class ResourceReindexingTask {
    const nextId: ResourceId
    const counter: Counter
    var updated: Option<Millis>

    constructor(nextId: ResourceId, counter: Counter)
      ensures this.nextId == nextId && this.counter == counter && updated == None
    {
      this.nextId := nextId;
      this.counter := counter;
      updated := None;
    }

    /** `doReindex`: the type-specific DAO has reindexed the resource. */
    method DoReindex()
      modifies counter
      ensures counter.value == old(counter.value) + 1
    {
      var _ := counter.IncrementAndGet();
    }

    /** `call`: a missing row makes the task throw; any other failure inside
        the transaction is caught and, unless it is a version conflict raised
        when committing, marks the resource as failed. Any other exception
        raised by the commit or by that marking escapes. Otherwise the task
        yields the updated date it read. */
    method Call(svc: ResourceReindexingSvcImpl, attempt: Attempt) returns (r: TaskResult)
      modifies this, counter, svc`index
      ensures r == TaskOutcome(attempt)
      ensures counter.value == old(counter.value) + (if Counted(attempt) then 1 else 0)
      ensures svc.index == if MarksFailed(attempt) then PurgeResource(old(svc.index), nextId) else old(svc.index)
      ensures attempt.RowFound? ==> updated == attempt.updated
      ensures attempt.RowMissing? ==> updated == old(updated)
    {
      var reindexFailure: bool;
      match attempt {
        case RowMissing =>
          return Threw;
        case RowFound(rowUpdated, step) =>
          updated := rowUpdated;
          match step {
            case Reindexed =>
              DoReindex();
              reindexFailure := false;
            case ReindexThrew =>
              reindexFailure := true;
            case CommitConflict =>
              DoReindex();
              reindexFailure := false;
            case CommitFailed =>
              DoReindex();
              return Threw;
            case PurgeFailed =>
              // The purge's own transaction rolls back; its exception escapes.
              return Threw;
          }
      }
      if reindexFailure {
        svc.MarkResourceAsIndexingFailed(nextId);
      }
      r := if updated.Some? then Date(updated.value) else NoDate;
    }
  }

  class ResourceReindexingSvcImpl {
    /** The reindex-job table, keyed by job id. */
    var jobs: map<JobId, Job>
    /** The next id the job table's sequence hands out. */
    var nextJobId: JobId
    /** The resource index tables. */
    var index: Index
    /** `myIndexingLock`, as a held flag. */
    var indexingLocked: bool
    /** `DaoConfig.isSchedulingDisabled()`. */
    const schedulingDisabled: bool

    /** Every job id was handed out by the sequence. */
    ghost predicate Valid()
      reads this
    {
      forall id :: id in jobs ==> id < nextJobId
    }

    constructor(schedulingDisabled: bool, index: Index)
      ensures Valid()
      ensures jobs == map[] && nextJobId == 0 && this.index == index && !indexingLocked
      ensures this.schedulingDisabled == schedulingDisabled
    {
      jobs := map[];
      nextJobId := 0;
      this.index := index;
      indexingLocked := false;
      this.schedulingDisabled := schedulingDisabled;
    }

    /** `markAllResourcesForReindexing()`. */
    method MarkAllResourcesForReindexing(now: Millis)
      requires Valid()
      modifies this`jobs, this`nextJobId
      ensures Valid()
      ensures jobs == MarkAllSpec(old(jobs), old(nextJobId), None, now)
      ensures nextJobId == old(nextJobId) + 1
    {
      MarkAllResourcesForReindexingOfType(None, now);
    }

    /** `markAllResourcesForReindexing(type)`. */
    method MarkAllResourcesForReindexingOfType(theType: Option<string>, now: Millis)
      requires Valid()
      modifies this`jobs, this`nextJobId
      ensures Valid()
      ensures jobs == MarkAllSpec(old(jobs), old(nextJobId), theType, now)
      ensures nextJobId == old(nextJobId) + 1
    {
      if !IsBlank(theType) {
        jobs := MarkAllOfTypeAsDeleted(jobs, theType.value);
      } else {
        jobs := MarkAllAsDeleted(jobs);
      }
      var job := NewJob(theType, now);
      jobs := jobs[nextJobId := job];
      nextJobId := nextJobId + 1;
    }

    /** `runReindexingPass`: the scheduled pass. It does nothing and yields
        null when scheduling is disabled or another pass holds the lock. */
    method RunReindexingPass(now: Millis, scan: Scanner) returns (r: Option<int>)
      requires Valid()
      modifies this`jobs, this`index, this`indexingLocked
      ensures Valid()
      ensures indexingLocked == old(indexingLocked)
      ensures schedulingDisabled || old(indexingLocked) ==>
        r == None && jobs == old(jobs) && index == old(index)
      ensures !schedulingDisabled && !old(indexingLocked) ==>
        r.Some? && Outcome(World(jobs, index), r.value) == PassSpec(World(old(jobs), old(index)), nextJobId, now, scan)
    {
      if schedulingDisabled {
        return None;
      }
      if !indexingLocked {
        indexingLocked := true;
        var count := DoReindexingPassInsideLock(now, scan);
        indexingLocked := false;
        return Some(count);
      }
      return None;
    }

    /** `doReindexingPassInsideLock`. */
    method DoReindexingPassInsideLock(now: Millis, scan: Scanner) returns (count: int)
      requires Valid() && indexingLocked
      modifies this`jobs, this`index
      ensures Valid()
      ensures Outcome(World(jobs, index), count) == PassSpec(World(old(jobs), old(index)), nextJobId, now, scan)
    {
      ExpungeJobsMarkedAsDeleted();
      count := RunReindexJobs(now, scan);
    }

    /** `forceReindexingPass`: waits for the lock instead of skipping, so a
        pass always runs; the lock is free again afterwards. */
    method ForceReindexingPass(now: Millis, scan: Scanner) returns (count: int)
      requires Valid()
      modifies this`jobs, this`index, this`indexingLocked
      ensures Valid()
      ensures !indexingLocked
      ensures Outcome(World(jobs, index), count) == PassSpec(World(old(jobs), old(index)), nextJobId, now, scan)
    {
      indexingLocked := true;
      count := DoReindexingPassInsideLock(now, scan);
      indexingLocked := false;
    }

    /** `cancelAndPurgeAllJobs`. */
    method CancelAndPurgeAllJobs()
      requires Valid()
      modifies this`jobs
      ensures Valid()
      ensures jobs == CancelSpec(old(jobs), nextJobId)
    {
      jobs := MarkAllAsDeleted(jobs);
      ExpungeJobsMarkedAsDeleted();
    }

    /** `runReindexJobs`: one page of active jobs, each deleted when past its
        upper threshold and run otherwise; the counts add up. */
    method RunReindexJobs(now: Millis, scan: Scanner) returns (count: int)
      requires Valid() && indexingLocked
      modifies this`jobs, this`index
      ensures Valid()
      ensures Outcome(World(jobs, index), count) == RunActiveJobsSpec(World(old(jobs), old(index)), nextJobId, now, scan)
    {
      var loaded := jobs;
      var page := FindAll(jobs, false, nextJobId, JobPageSize);
      PageFromSpec(jobs, false, 0, nextJobId, JobPageSize);
      assert forall j :: 0 <= j < |page| ==> page[j] in loaded;
      count := 0;
      var i := 0;
      while i < |page|
        invariant 0 <= i <= |page|
        invariant forall j :: 0 <= j < |page| ==> page[j] in loaded
        invariant Valid()
        invariant Outcome(World(jobs, index), count) == RunJobsSpec(World(loaded, old(index)), loaded, page[..i], now, scan)
      {
        var id := page[i];
        var n := RunJobTurn(id, loaded[id], now, scan);
        count := count + n;
        RunJobsSpecSnoc(World(loaded, old(index)), loaded, page, i, now, scan);
        i := i + 1;
      }
      assert page[..|page|] == page;
    }

    /** The body of the job loop of `runReindexJobs`. */
    method RunJobTurn(id: JobId, next: Job, now: Millis, scan: Scanner) returns (n: int)
      requires Valid()
      modifies this`jobs, this`index
      ensures Valid()
      ensures Outcome(World(jobs, index), n) == JobTurnSpec(World(old(jobs), old(index)), id, next, now, scan)
    {
      if next.thresholdHigh < now {
        MarkJobAsDeleted(id);
        return 0;
      }
      n := RunReindexJob(id, next, now, scan);
    }

    /** `markJobAsDeleted`. */
    method MarkJobAsDeleted(id: JobId)
      requires Valid()
      modifies this`jobs
      ensures Valid()
      ensures jobs == MarkAsDeletedById(old(jobs), id)
    {
      jobs := MarkAsDeletedById(jobs, id);
    }

    /** The submission stream of `runReindexJob`: one task per scanned
        resource, all sharing one fresh counter, run in order. */
    method SubmitTasks(range: seq<Candidate>) returns (futures: seq<TaskResult>, counter: Counter)
      modifies this`index
      ensures fresh(counter)
      ensures TasksRun(index, futures, counter.value) == RunTasks(old(index), range)
    {
      counter := new Counter();
      futures := [];
      var i := 0;
      while i < |range|
        invariant 0 <= i <= |range|
        invariant TasksRun(index, futures, counter.value) == RunTasks(old(index), range[..i])
      {
        var task := new ResourceReindexingTask(range[i].id, counter);
        var r := task.Call(this, range[i].attempt);
        futures := futures + [r];
        assert range[..i + 1][..i] == range[..i];
        i := i + 1;
      }
      assert range[..|range|] == range;
    }

    /** `runReindexJob`: scans one page for the job, runs a task per resource,
        folds the futures, and moves the cursor, deletes the job, or suspends. */
    method RunReindexJob(id: JobId, job: Job, now: Millis, scan: Scanner) returns (n: int)
      requires Valid()
      modifies this`jobs, this`index
      ensures Valid()
      ensures Outcome(World(jobs, index), n) == RunJobSpec(World(old(jobs), old(index)), id, job, now, scan)
    {
      if IsSuspended(job, now) {
        return 0;
      }
      var low := job.thresholdLow.GetOr(BeginningOfTime);
      var range := scan(ScanRequestFor(job));
      var futures, counter := SubmitTasks(range);
      assert RunTasks(old(index), range) == TasksRun(index, futures, counter.value);

      var latestDate: Option<Millis> := None;
      var haveMultipleDates := false;
      var k := 0;
      while k < |futures|
        invariant 0 <= k <= |futures|
        invariant Collect(futures[..k]) == Gathered(latestDate, haveMultipleDates)
      {
        var next := futures[k];
        assert futures[..k + 1][..k] == futures[..k];
        if next.Threw? {
          CollectMeaning(futures);
          assert Collect(futures) == Aborted;
          var suspendedUntil := now + SuspendMillis;
          jobs := SetSuspendedUntil(jobs, suspendedUntil);
          return counter.value;
        }
        if next.Date? {
          if latestDate.Some? && latestDate.value != next.t {
            haveMultipleDates := true;
          }
          if latestDate.None? || latestDate.value < next.t {
            latestDate := Some(next.t);
          }
        }
        k := k + 1;
      }
      assert futures[..|futures|] == futures;
      assert Collect(futures) == Gathered(latestDate, haveMultipleDates);

      if latestDate.None? {
        MarkJobAsDeleted(id);
        return 0;
      }
      var newLow: Millis;
      if latestDate.value == low {
        newLow := latestDate.value + 1;
      } else if !haveMultipleDates {
        newLow := latestDate.value + 1;
      } else {
        newLow := latestDate.value;
      }
      assert newLow == NewThresholdLow(low, latestDate.value, haveMultipleDates);
      jobs := SetThresholdLow(jobs, id, newLow);
      n := counter.value;
    }

    /** `expungeJobsMarkedAsDeleted`: removes one page of soft-deleted jobs. */
    method ExpungeJobsMarkedAsDeleted()
      requires Valid()
      modifies this`jobs
      ensures Valid()
      ensures jobs == Expunged(old(jobs), nextJobId)
    {
      var toDelete := FindAll(jobs, true, nextJobId, JobPageSize);
      var i := 0;
      while i < |toDelete|
        invariant 0 <= i <= |toDelete|
        invariant jobs == old(jobs) - Ids(toDelete[..i])
      {
        assert Ids(toDelete[..i + 1]) == Ids(toDelete[..i]) + {toDelete[i]};
        jobs := jobs - {toDelete[i]};
        i := i + 1;
      }
      assert toDelete[..|toDelete|] == toDelete;
    }

    /** `markResourceAsIndexingFailed`: in a transaction of its own, the
        resource's status becomes failed and its tag rows, its rows in the
        seven search-parameter tables and every link from or to it are deleted. */
    method MarkResourceAsIndexingFailed(id: ResourceId)
      modifies this`index
      ensures index == PurgeResource(old(index), id)
    {
      var status := UpdateIndexStatus(index.status, id, IndexingFailed);
      var rows := DeleteRows(index.rows, ResourceTag, id);
      rows := DeleteRows(rows, SearchParamCoords, id);
      rows := DeleteRows(rows, SearchParamDate, id);
      rows := DeleteRows(rows, SearchParamNumber, id);
      rows := DeleteRows(rows, SearchParamQuantity, id);
      rows := DeleteRows(rows, SearchParamString, id);
      rows := DeleteRows(rows, SearchParamToken, id);
      rows := DeleteRows(rows, SearchParamUri, id);
      var links := set l | l in index.links && l.source != id;
      links := set l | l in links && l.target != id;
      assert rows == set r | r in index.rows && r.resource != id;
      index := Index(status, rows, links);
    }
  }
}
