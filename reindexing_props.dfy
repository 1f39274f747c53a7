/** What one job's batch, one pass, and the job-table operations of
    `ResourceReindexingSvcImpl` promise, proved on the functions that the
    service's methods are verified against. */
module ReindexingProps {
  import opened JobStore
  import opened ReindexJobRun
  import opened ResourceIndex
  import opened ReindexingSvc

  /** The cursor a job's scan starts from. */
  function LowOf(job: Job): Millis {
    job.thresholdLow.GetOr(BeginningOfTime)
  }

  /** No task of the page throws. */
  predicate NoTaskThrows(cands: seq<Candidate>) {
    forall i :: 0 <= i < |cands| ==> !Throws(cands[i].attempt)
  }

  /** A null cursor scans from the epoch; the scan always stops at the job's
      upper threshold and filters by type only when the type is not blank. */
  lemma ScanRange(job: Job)
    ensures job.thresholdLow.None? ==> ScanRequestFor(job).low == BeginningOfTime
    ensures job.thresholdLow.Some? ==> ScanRequestFor(job).low == job.thresholdLow.value
    ensures ScanRequestFor(job).high == job.thresholdHigh
    ensures ScanRequestFor(job).pageSize == ScanPageSize
    ensures ScanRequestFor(job).resourceType.None? <==> IsBlank(job.resourceType)
  {
  }

  /** A suspended job is skipped: nothing is scanned or changed, and it counts 0. */
  lemma SuspendedJobIsSkipped(w: World, id: JobId, job: Job, now: Millis, scan: Scanner)
    requires IsSuspended(job, now)
    ensures RunJobSpec(w, id, job, now, scan) == Outcome(w, 0)
  {
  }

  /** A page in which some task throws (a missing row, a failed commit, a
      failed purge): every job row is suspended until a minute from now, no cursor and no deleted flag changes, and the job
      counts the reindexes that went through. */
  lemma JobSuspendedOnThrow(w: World, id: JobId, job: Job, now: Millis, scan: Scanner)
    requires !IsSuspended(job, now)
    requires !NoTaskThrows(scan(ScanRequestFor(job)))
    ensures var o := RunJobSpec(w, id, job, now, scan);
      var cands := scan(ScanRequestFor(job));
      && o.world.jobs == SetSuspendedUntil(w.jobs, now + SuspendMillis)
      && (forall x :: x in w.jobs ==>
            o.world.jobs[x].thresholdLow == w.jobs[x].thresholdLow && o.world.jobs[x].deleted == w.jobs[x].deleted)
      && o.count == Successes(cands)
      && o.world.index == RunTasks(w.index, cands).index
  {
    var cands := scan(ScanRequestFor(job));
    var run := RunTasks(w.index, cands);
    RunTasksThrows(w.index, cands);
    RunTasksCount(w.index, cands);
    CollectMeaning(run.results);
  }

  /** A page that yields no date at all, an empty page included: the job is
      soft-deleted, its cursor is left as it was, and it counts 0. */
  lemma JobDeletedWhenNoDates(w: World, id: JobId, job: Job, now: Millis, scan: Scanner)
    requires !IsSuspended(job, now)
    requires NoTaskThrows(scan(ScanRequestFor(job)))
    requires UpdatedDates(scan(ScanRequestFor(job))) == []
    ensures var o := RunJobSpec(w, id, job, now, scan);
      && o.world.jobs == MarkAsDeletedById(w.jobs, id)
      && o.count == 0
      && o.world.index == RunTasks(w.index, scan(ScanRequestFor(job))).index
  {
    var cands := scan(ScanRequestFor(job));
    var run := RunTasks(w.index, cands);
    RunTasksThrows(w.index, cands);
    RunTasksDates(w.index, cands);
    CollectMeaning(run.results);
  }

  /** A page in which no task throws and whose latest updated date is `m`: the cursor
      becomes `m + 1` when `m` is the old cursor or all dates are equal, and
      `m` itself when the dates vary; the job counts the reindexes that went
      through. */
  lemma JobCursorAdvances(w: World, id: JobId, job: Job, now: Millis, scan: Scanner, m: Millis)
    requires !IsSuspended(job, now)
    requires NoTaskThrows(scan(ScanRequestFor(job)))
    requires IsMax(UpdatedDates(scan(ScanRequestFor(job))), m)
    ensures var o := RunJobSpec(w, id, job, now, scan);
      var cands := scan(ScanRequestFor(job));
      var d := UpdatedDates(cands);
      && o.world.jobs == SetThresholdLow(w.jobs, id, NewThresholdLow(LowOf(job), m, !AllEqual(d)))
      && o.count == Successes(cands)
      && o.world.index == RunTasks(w.index, cands).index
  {
    var cands := scan(ScanRequestFor(job));
    var run := RunTasks(w.index, cands);
    RunTasksThrows(w.index, cands);
    RunTasksDates(w.index, cands);
    RunTasksCount(w.index, cands);
    CollectMeaning(run.results);
    var latest := Collect(run.results).latestDate.value;
    var d := UpdatedDates(cands);
    assert latest in d && m in d;
    assert latest <= m && m <= latest;
  }

  /** When every date a page yields lies in the job's scan range, the job's
      cursor moves strictly forward and stays at or below its upper threshold. */
  lemma JobCursorProgress(w: World, id: JobId, job: Job, now: Millis, scan: Scanner)
    requires id in w.jobs
    requires !IsSuspended(job, now)
    requires NoTaskThrows(scan(ScanRequestFor(job)))
    requires UpdatedDates(scan(ScanRequestFor(job))) != []
    requires var d := UpdatedDates(scan(ScanRequestFor(job)));
      forall i :: 0 <= i < |d| ==> LowOf(job) <= d[i] < job.thresholdHigh
    ensures var o := RunJobSpec(w, id, job, now, scan);
      && id in o.world.jobs
      && o.world.jobs[id].thresholdLow.Some?
      && LowOf(job) < o.world.jobs[id].thresholdLow.value <= job.thresholdHigh
  {
    var cands := scan(ScanRequestFor(job));
    var run := RunTasks(w.index, cands);
    RunTasksThrows(w.index, cands);
    RunTasksDates(w.index, cands);
    CursorProgress(run.results, LowOf(job), job.thresholdHigh);
  }

  /** A job past its upper threshold is soft-deleted and not run. */
  lemma ExpiredJobIsDeleted(w: World, id: JobId, job: Job, now: Millis, scan: Scanner)
    requires job.thresholdHigh < now
    ensures JobTurnSpec(w, id, job, now, scan) == Outcome(World(MarkAsDeletedById(w.jobs, id), w.index), 0)
  {
  }

  /** What one turn of the job loop leaves alone. */
  predicate TurnKeeps(before: map<JobId, Job>, after: map<JobId, Job>) {
    && after.Keys == before.Keys
    && (forall x :: x in before ==>
          && after[x].thresholdHigh == before[x].thresholdHigh
          && after[x].resourceType == before[x].resourceType
          && (before[x].deleted ==> after[x].deleted))
  }

  lemma JobTurnKeeps(w: World, id: JobId, job: Job, now: Millis, scan: Scanner)
    ensures var o := JobTurnSpec(w, id, job, now, scan);
      && TurnKeeps(w.jobs, o.world.jobs)
      && (forall x :: x in w.jobs && x != id ==>
            o.world.jobs[x].thresholdLow == w.jobs[x].thresholdLow
            && o.world.jobs[x].deleted == w.jobs[x].deleted)
      && o.count >= 0
  {
    if job.thresholdHigh >= now && !IsSuspended(job, now) {
      var req := ScanRequestFor(job);
      var run := RunTasks(w.index, scan(req));
      match Collect(run.results)
      case Aborted =>
        assert JobTurnSpec(w, id, job, now, scan).world.jobs == SetSuspendedUntil(w.jobs, now + SuspendMillis);
      case Gathered(latest, multiple) =>
        if latest.None? {
          assert JobTurnSpec(w, id, job, now, scan).world.jobs == MarkAsDeletedById(w.jobs, id);
        } else {
          var low := NewThresholdLow(req.low, latest.value, multiple);
          assert JobTurnSpec(w, id, job, now, scan).world.jobs == SetThresholdLow(w.jobs, id, low);
        }
    }
  }

  /** The job loop of a pass deletes no row, never changes a job's upper
      threshold or type, never revives a soft-deleted job, touches the cursor
      and deleted flag only of jobs it loaded, and counts nothing negative. */
  lemma {:induction false} RunJobsKeeps(w: World, loaded: map<JobId, Job>, page: seq<JobId>, now: Millis, scan: Scanner)
    requires forall i :: 0 <= i < |page| ==> page[i] in loaded
    ensures var o := RunJobsSpec(w, loaded, page, now, scan);
      && TurnKeeps(w.jobs, o.world.jobs)
      && (forall x :: x in w.jobs && x !in page ==>
            o.world.jobs[x].thresholdLow == w.jobs[x].thresholdLow
            && o.world.jobs[x].deleted == w.jobs[x].deleted)
      && o.count >= 0
    decreases |page|
  {
    if page != [] {
      var init := page[..|page| - 1];
      var id := page[|page| - 1];
      RunJobsKeeps(w, loaded, init, now, scan);
      var prev := RunJobsSpec(w, loaded, init, now, scan);
      JobTurnKeeps(prev.world, id, loaded[id], now, scan);
    }
  }

  /** A pass first removes one page of soft-deleted jobs, and only those; it
      removes no other row; and it changes the cursor or the deleted flag only
      of the jobs of the one page of at most ten active jobs it loaded. */
  lemma PassExpungesThenRunsActive(w: World, bound: nat, now: Millis, scan: Scanner)
    requires forall x :: x in w.jobs ==> x < bound
    ensures var o := PassSpec(w, bound, now, scan);
      var purged := Ids(FindAll(w.jobs, true, bound, JobPageSize));
      var loaded := Ids(FindAll(Expunged(w.jobs, bound), false, bound, JobPageSize));
      && purged <= w.jobs.Keys
      && |purged| <= JobPageSize
      && (forall x :: x in purged ==> w.jobs[x].deleted)
      && o.world.jobs.Keys == w.jobs.Keys - purged
      && (forall x :: x in o.world.jobs && w.jobs[x].deleted ==> o.world.jobs[x].deleted)
      && |loaded| <= JobPageSize
      && (forall x :: x in loaded ==> x in w.jobs && !w.jobs[x].deleted)
      && (forall x :: x in o.world.jobs
            && (o.world.jobs[x].thresholdLow != w.jobs[x].thresholdLow || o.world.jobs[x].deleted != w.jobs[x].deleted)
            ==> x in loaded)
      && o.count >= 0
  {
    var page := FindAll(w.jobs, true, bound, JobPageSize);
    FindAllSpec(w.jobs, true, bound, JobPageSize);
    AscendingIdsCard(page);
    var jobs := Expunged(w.jobs, bound);
    assert forall x :: x in jobs ==> x < bound;
    var active := FindAll(jobs, false, bound, JobPageSize);
    FindAllSpec(jobs, false, bound, JobPageSize);
    RunJobsKeeps(World(jobs, w.index), jobs, active, now, scan);
    forall x | x in page
      ensures x in w.jobs && w.jobs[x].deleted
    {
      var k :| 0 <= k < |page| && page[k] == x;
    }
    AscendingIdsCard(active);
    forall x | x in active
      ensures x in jobs && !jobs[x].deleted
    {
      var k :| 0 <= k < |active| && active[k] == x;
    }
  }

  /** The resource scan returns only resources updated at or after the low end
      of the requested range, so every date a task reads is at or after it. */
  ghost predicate ScanHonoursLow(scan: Scanner) {
    forall req: ScanRequest, i :: 0 <= i < |UpdatedDates(scan(req))| ==> req.low <= UpdatedDates(scan(req))[i]
  }

  /** No cursor of a job that is still in the table has moved back. */
  predicate CursorsNotBehind(before: map<JobId, Job>, after: map<JobId, Job>) {
    forall x :: x in after && x in before ==> LowOf(before[x]) <= LowOf(after[x])
  }

  /** One turn of the job loop, run from the job's current row, moves no
      cursor back. */
  lemma JobTurnCursorsNotBehind(w: World, id: JobId, job: Job, now: Millis, scan: Scanner)
    requires ScanHonoursLow(scan)
    requires id in w.jobs ==> w.jobs[id].thresholdLow == job.thresholdLow
    ensures CursorsNotBehind(w.jobs, JobTurnSpec(w, id, job, now, scan).world.jobs)
  {
    if job.thresholdHigh >= now && !IsSuspended(job, now) {
      var cands := scan(ScanRequestFor(job));
      var run := RunTasks(w.index, cands);
      var c := Collect(run.results);
      if c.Gathered? && c.latestDate.Some? {
        RunTasksDates(w.index, cands);
        CollectMeaning(run.results);
        var d := UpdatedDates(cands);
        var k :| 0 <= k < |d| && d[k] == c.latestDate.value;
        assert LowOf(job) <= c.latestDate.value;
      }
    }
  }

  /** The job loop over a page of distinct ids, each loaded with the cursor it
      has in the table, moves no cursor back. */
  lemma {:induction false} RunJobsCursorsNotBehind(w: World, loaded: map<JobId, Job>, page: seq<JobId>, now: Millis, scan: Scanner)
    requires ScanHonoursLow(scan)
    requires forall i :: 0 <= i < |page| ==> page[i] in loaded
    requires forall i, j :: 0 <= i < j < |page| ==> page[i] != page[j]
    requires forall i :: 0 <= i < |page| && page[i] in w.jobs ==> w.jobs[page[i]].thresholdLow == loaded[page[i]].thresholdLow
    ensures CursorsNotBehind(w.jobs, RunJobsSpec(w, loaded, page, now, scan).world.jobs)
    decreases |page|
  {
    if page != [] {
      var init := page[..|page| - 1];
      var id := page[|page| - 1];
      RunJobsCursorsNotBehind(w, loaded, init, now, scan);
      RunJobsKeeps(w, loaded, init, now, scan);
      var prev := RunJobsSpec(w, loaded, init, now, scan);
      assert id !in init by {
        forall i | 0 <= i < |init| ensures init[i] != id {
          assert init[i] == page[i];
        }
      }
      JobTurnCursorsNotBehind(prev.world, id, loaded[id], now, scan);
    }
  }

  /** Across a whole pass no job's cursor moves back, provided the resource
      scan honours the low end of its range. */
  lemma PassCursorsNotBehind(w: World, bound: nat, now: Millis, scan: Scanner)
    requires forall x :: x in w.jobs ==> x < bound
    requires ScanHonoursLow(scan)
    ensures CursorsNotBehind(w.jobs, PassSpec(w, bound, now, scan).world.jobs)
  {
    var jobs := Expunged(w.jobs, bound);
    var active := FindAll(jobs, false, bound, JobPageSize);
    FindAllSpec(jobs, false, bound, JobPageSize);
    RunJobsCursorsNotBehind(World(jobs, w.index), jobs, active, now, scan);
    RunJobsKeeps(World(jobs, w.index), jobs, active, now, scan);
    assert forall x :: x in jobs ==> x in w.jobs && jobs[x] == w.jobs[x];
  }

  /** Marking for reindexing soft-deletes the jobs of its scope (every job when
      the type is blank), changes nothing else about existing jobs, and adds
      one active job with a null cursor and an upper threshold five minutes
      from now; that job is then the only active job of its scope. */
  lemma MarkAllLeavesOneActiveJob(jobs: map<JobId, Job>, nextId: JobId, theType: Option<string>, now: Millis)
    requires forall x :: x in jobs ==> x < nextId
    ensures var r := MarkAllSpec(jobs, nextId, theType, now);
      && r.Keys == jobs.Keys + {nextId}
      && r[nextId] == Job(theType, None, now + GraceWindowMillis, None, false)
      && (forall x :: x in jobs ==> r[x] == jobs[x].(deleted := r[x].deleted))
      && (forall x :: x in jobs ==>
            (r[x].deleted <==> jobs[x].deleted || IsBlank(theType) || jobs[x].resourceType == theType))
      && (forall x :: x in r && x != nextId && !r[x].deleted ==>
            !IsBlank(theType) && r[x].resourceType != theType)
  {
  }

  /** Every set is at least as large as each of its subsets. */
  lemma {:induction false} SubsetCard<T>(a: set<T>, b: set<T>)
    requires a <= b
    ensures |a| <= |b|
    decreases |b|
  {
    if a != {} {
      var x :| x in a;
      SubsetCard(a - {x}, b - {x});
    }
  }

  /** A subset no smaller than its superset is the superset itself. */
  lemma SubsetSameCard<T>(a: set<T>, b: set<T>)
    requires a <= b && |b| <= |a|
    ensures a == b
  {
    assert |b - a| == |b| - |a|;
    assert b - a == {};
  }

  /** Cancelling soft-deletes every job and expunges one page of them: what is
      left is all soft-deleted, so no later pass runs any of it; a table of at
      most ten jobs ends empty, and a larger one loses exactly ten. */
  lemma CancelDeletesAll(jobs: map<JobId, Job>, bound: nat)
    requires forall x :: x in jobs ==> x < bound
    ensures var r := CancelSpec(jobs, bound);
      && r.Keys <= jobs.Keys
      && (forall x :: x in r ==> r[x].deleted)
      && FindAll(r, false, bound, JobPageSize) == []
      && (|jobs.Keys| <= JobPageSize ==> r == map[])
      && (|jobs.Keys| > JobPageSize ==> |r.Keys| == |jobs.Keys| - JobPageSize)
  {
    var marked := MarkAllAsDeleted(jobs);
    var page := FindAll(marked, true, bound, JobPageSize);
    FindAllSpec(marked, true, bound, JobPageSize);
    AscendingIdsCard(page);
    var r := CancelSpec(jobs, bound);
    var purged := Ids(page);
    assert r.Keys == jobs.Keys - purged;
    assert forall x :: x in r ==> x < bound;
    FindAllSpec(r, false, bound, JobPageSize);
    assert purged <= jobs.Keys by {
      forall x | x in purged ensures x in jobs.Keys {
        var k :| 0 <= k < |page| && page[k] == x;
      }
    }
    if |page| < JobPageSize {
      assert jobs.Keys <= purged by {
        forall x | x in jobs.Keys ensures x in purged {
          assert Matches(marked, true, x);
          var k :| 0 <= k < |page| && page[k] == x;
        }
      }
      SubsetCard(jobs.Keys, purged);
    }
    if |jobs.Keys| <= JobPageSize {
      if |page| == JobPageSize {
        SubsetSameCard(purged, jobs.Keys);
      }
      assert r.Keys == {};
    } else {
      assert |jobs.Keys - purged| == |jobs.Keys| - |purged|;
    }
  }
}
