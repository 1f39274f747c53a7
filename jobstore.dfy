/** The reindex-job table: the job record, the updates the job DAO performs on
    the table, and the page of jobs a pass loads. */
module JobStore {

  datatype Option<+T> = None | Some(value: T) {
    function GetOr(default: T): T {
      if Some? then value else default
    }
  }

  /** Timestamps are `java.util.Date` values, kept as milliseconds since the epoch. */
  type Millis = int
  type JobId = nat

  /** `BEGINNING_OF_TIME`, the scan start of a job whose `thresholdLow` is still null. */
  const BeginningOfTime: Millis := 0
  /** A new job may reindex resources updated up to five minutes after it was created. */
  const GraceWindowMillis: Millis := 5 * 60 * 1000
  /** A job whose pass hit a failing task is suspended for one minute. */
  const SuspendMillis: Millis := 1 * 60 * 1000
  /** Jobs loaded per pass, and deleted jobs expunged per pass. */
  const JobPageSize: nat := 10
  /** Resources scanned per job per pass. */
  const ScanPageSize: nat := 10000

  /** One row of the reindex-job table (`ResourceReindexJobEntity`). */
  datatype Job = Job(
    resourceType: Option<string>,
    thresholdLow: Option<Millis>,
    thresholdHigh: Millis,
    suspendedUntil: Option<Millis>,
    deleted: bool)

  /** `Character.isWhitespace` on the characters below U+0080. */
  predicate IsWhitespace(c: char) {
    c == ' ' || c == '\t' || c == '\n' || c == '\r' || c == '\U{B}' || c == '\U{C}'
    || ('\U{1C}' <= c <= '\U{1F}')
  }

  /** `StringUtils.isBlank`: null, empty or only whitespace. */
  predicate IsBlank(s: Option<string>) {
    s.None? || forall i :: 0 <= i < |s.value| ==> IsWhitespace(s.value[i])
  }

  /** The job a `markAllResourcesForReindexing` call inserts. */
  function NewJob(theType: Option<string>, now: Millis): Job {
    Job(theType, None, now + GraceWindowMillis, None, false)
  }

  // ---------------------------------------------------------------------------
  // Updates the job DAO performs. Each one is its own transaction; an id that
  // is not in the table is left alone.

  /** `markAllOfTypeAsDeleted(type)`: soft-deletes the jobs of one resource type. */
  function MarkAllOfTypeAsDeleted(jobs: map<JobId, Job>, theType: string): (r: map<JobId, Job>)
    ensures r.Keys == jobs.Keys
  {
    map id | id in jobs :: if jobs[id].resourceType == Some(theType) then jobs[id].(deleted := true) else jobs[id]
  }

  /** `markAllOfTypeAsDeleted()`: soft-deletes every job. */
  function MarkAllAsDeleted(jobs: map<JobId, Job>): (r: map<JobId, Job>)
    ensures r.Keys == jobs.Keys
  {
    map id | id in jobs :: jobs[id].(deleted := true)
  }

  /** `markAsDeletedById(id)`. */
  function MarkAsDeletedById(jobs: map<JobId, Job>, id: JobId): (r: map<JobId, Job>)
    ensures r.Keys == jobs.Keys
  {
    if id in jobs then jobs[id := jobs[id].(deleted := true)] else jobs
  }

  /** `setThresholdLow(id, low)`. */
  function SetThresholdLow(jobs: map<JobId, Job>, id: JobId, low: Millis): (r: map<JobId, Job>)
    ensures r.Keys == jobs.Keys
  {
    if id in jobs then jobs[id := jobs[id].(thresholdLow := Some(low))] else jobs
  }

  /** `setSuspendedUntil(date)`: the call names no job, so it updates every row. */
  function SetSuspendedUntil(jobs: map<JobId, Job>, until: Millis): (r: map<JobId, Job>)
    ensures r.Keys == jobs.Keys
  {
    map id | id in jobs :: jobs[id].(suspendedUntil := Some(until))
  }

  /** The ids of a page, as a set. */
  function Ids(page: seq<JobId>): set<JobId> {
    set i | 0 <= i < |page| :: page[i]
  }

  predicate StrictlyAscending(s: seq<JobId>) {
    forall i, j :: 0 <= i < j < |s| ==> s[i] < s[j]
  }

  predicate Matches(jobs: map<JobId, Job>, deleted: bool, id: JobId) {
    id in jobs && jobs[id].deleted == deleted
  }

  /** The ids in `[from, bound)` whose row has the given deleted flag, oldest
      first, at most `limit` of them. */
  function PageFrom(jobs: map<JobId, Job>, deleted: bool, from: nat, bound: nat, limit: nat): seq<JobId>
    decreases bound - from
  {
    if from >= bound || limit == 0 then []
    else if Matches(jobs, deleted, from) then [from] + PageFrom(jobs, deleted, from + 1, bound, limit - 1)
    else PageFrom(jobs, deleted, from + 1, bound, limit)
  }

  /** `findAll(PageRequest.of(0, limit), deleted)` over a table whose ids are all
      below `bound`. */
  function FindAll(jobs: map<JobId, Job>, deleted: bool, bound: nat, limit: nat): seq<JobId> {
    PageFrom(jobs, deleted, 0, bound, limit)
  }

  /** A page holds only rows with the requested flag, no id twice, at most
      `limit` ids, and the oldest ones: an id left out is newer than every id
      taken, and is left out only because the page is full. */
  lemma {:induction false} PageFromSpec(jobs: map<JobId, Job>, deleted: bool, from: nat, bound: nat, limit: nat)
    ensures var r := PageFrom(jobs, deleted, from, bound, limit);
      && |r| <= limit
      && (forall i :: 0 <= i < |r| ==> from <= r[i] < bound && Matches(jobs, deleted, r[i]))
      && StrictlyAscending(r)
      && (r != [] ==> Matches(jobs, deleted, r[0]))
      && (forall id :: from <= id < bound && Matches(jobs, deleted, id) && id !in r ==>
            |r| == limit && forall i :: 0 <= i < |r| ==> r[i] < id)
    decreases bound - from
  {
    if from >= bound || limit == 0 {
    } else if Matches(jobs, deleted, from) {
      PageFromSpec(jobs, deleted, from + 1, bound, limit - 1);
    } else {
      PageFromSpec(jobs, deleted, from + 1, bound, limit);
    }
  }

  /** Consequence for the whole table: when every id is below `bound`, a page
      that is not full holds every row with the requested flag. */
  lemma FindAllSpec(jobs: map<JobId, Job>, deleted: bool, bound: nat, limit: nat)
    requires forall id :: id in jobs ==> id < bound
    ensures var r := FindAll(jobs, deleted, bound, limit);
      && |r| <= limit
      && (forall i :: 0 <= i < |r| ==> Matches(jobs, deleted, r[i]))
      && StrictlyAscending(r)
      && (r != [] ==> Matches(jobs, deleted, r[0]))
      && (forall id :: Matches(jobs, deleted, id) && id !in r ==>
            |r| == limit && forall i :: 0 <= i < |r| ==> r[i] < id)
  {
    PageFromSpec(jobs, deleted, 0, bound, limit);
  }

  /** A strictly ascending page names exactly as many rows as it is long. */
  lemma {:induction false} AscendingIdsCard(s: seq<JobId>)
    requires StrictlyAscending(s)
    ensures |Ids(s)| == |s|
    decreases |s|
  {
    if s != [] {
      var init := s[..|s| - 1];
      AscendingIdsCard(init);
      assert Ids(s) == Ids(init) + {s[|s| - 1]};
      assert s[|s| - 1] !in Ids(init);
    }
  }
}
