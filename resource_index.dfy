/** The derived index rows of the resource store that a reindexing task may
    purge, and the outcome of one reindexing task as the scheduler sees it. */
module ResourceIndex {
  import opened JobStore
  import opened ReindexJobRun

  /** A resource's persistent id (`ResourceTable` primary key). */
  type ResourceId = int

  /** The tag table and the seven search-parameter tables keyed by the
      resource they were derived from. */
  datatype IndexTable =
    | ResourceTag
    | SearchParamCoords
    | SearchParamDate
    | SearchParamNumber
    | SearchParamQuantity
    | SearchParamString
    | SearchParamToken
    | SearchParamUri

  /** One row of one of those tables; `key` tells rows of the same resource apart. */
  datatype IndexRow = IndexRow(table: IndexTable, resource: ResourceId, key: int)

  /** One row of the `ResourceLink` table: a reference from `source` to `target`. */
  datatype ResourceLink = ResourceLink(source: ResourceId, target: ResourceId, key: int)

  /** The index status column of `ResourceTable`. */
  datatype IndexStatus = NotIndexed | Indexed | IndexingFailed

  datatype Index = Index(
    status: map<ResourceId, IndexStatus>,
    rows: set<IndexRow>,
    links: set<ResourceLink>)

  /** A resource's rows in one table are dropped. */
  function DeleteRows(rows: set<IndexRow>, table: IndexTable, id: ResourceId): set<IndexRow> {
    set r | r in rows && !(r.table == table && r.resource == id)
  }

  /** `updateIndexStatus(id, status)`: an update query, so a missing id is left alone. */
  function UpdateIndexStatus(status: map<ResourceId, IndexStatus>, id: ResourceId, s: IndexStatus): map<ResourceId, IndexStatus> {
    if id in status then status[id := s] else status
  }

  /** What `markResourceAsIndexingFailed(id)` leaves behind, taken as one
      whole: the resource is flagged as failed and every row derived from it is
      gone, including each link in which it is the source or the target. */
  function PurgeResource(ix: Index, id: ResourceId): Index {
    Index(
      UpdateIndexStatus(ix.status, id, IndexingFailed),
      set r | r in ix.rows && r.resource != id,
      set l | l in ix.links && l.source != id && l.target != id)
  }

  /** After a purge nothing refers to the purged resource, the rows and links
      of other resources are exactly as before, and purging again changes nothing. */
  lemma PurgeResourceSpec(ix: Index, id: ResourceId)
    ensures var p := PurgeResource(ix, id);
      && (forall r :: r in p.rows ==> r.resource != id)
      && (forall l :: l in p.links ==> l.source != id && l.target != id)
      && (forall r: IndexRow :: r.resource != id ==> (r in p.rows <==> r in ix.rows))
      && (forall l: ResourceLink :: l.source != id && l.target != id ==> (l in p.links <==> l in ix.links))
      && p.status.Keys == ix.status.Keys
      && (id in p.status ==> p.status[id] == IndexingFailed)
      && (forall x :: x in ix.status && x != id ==> p.status[x] == ix.status[x])
      && PurgeResource(p, id) == p
  {
  }

  // ---------------------------------------------------------------------------
  // One reindexing task. The storage engine it calls is outside this model;
  // what it does is given as an `Attempt`.

  /** What happens to the task after the row was loaded:
      - `Reindexed`: the type-specific DAO reindexed it and the transaction committed;
      - `ReindexThrew`: something inside threw (no DAO, no stored version, the
        reindex itself), was caught, and the resource was marked as failed;
      - `CommitConflict`: the reindex went through and committing it raised a
        version conflict, which is swallowed (line 453);
      - `CommitFailed`: the reindex went through and committing it raised any
        other exception, which escapes `call`;
      - `PurgeFailed`: a failure was caught as in `ReindexThrew`, but the
        separate transaction of `markResourceAsIndexingFailed` failed, was
        rolled back, and its exception escapes `call`. */
  datatype ReindexStep = Reindexed | ReindexThrew | CommitConflict | CommitFailed | PurgeFailed

  /** `findById` found no row (the task throws), or found one whose updated
      date is `updated` (null is `None`) and went on as `step` says. */
  datatype Attempt = RowMissing | RowFound(updated: Option<Millis>, step: ReindexStep)

  /** One id of a scanned page, with what its task will run into. */
  datatype Candidate = Candidate(id: ResourceId, attempt: Attempt)

  /** The task's future throws: the row is missing, or an exception escaped
      the commit or the purge. */
  predicate Throws(a: Attempt) {
    a.RowMissing? || a.step == CommitFailed || a.step == PurgeFailed
  }

  /** The shared counter is incremented once the DAO's reindex returned. */
  predicate Counted(a: Attempt) {
    a.RowFound? && (a.step == Reindexed || a.step == CommitConflict || a.step == CommitFailed)
  }

  /** A caught failure other than a version conflict marks the resource failed,
      when that purge's own transaction commits. */
  predicate MarksFailed(a: Attempt) {
    a.RowFound? && a.step == ReindexThrew
  }

  /** What the task's future yields. */
  function TaskOutcome(a: Attempt): TaskResult {
    if Throws(a) then Threw
    else if a.updated.Some? then Date(a.updated.value)
    else NoDate
  }

  /** The futures of a page, the index after its tasks, and the counter. */
  datatype TasksRun = TasksRun(index: Index, results: seq<TaskResult>, successes: nat)

  /** Every task of a page run in submission order. */
  function RunTasks(ix: Index, cands: seq<Candidate>): TasksRun
    decreases |cands|
  {
    if cands == [] then TasksRun(ix, [], 0)
    else
      var prev := RunTasks(ix, cands[..|cands| - 1]);
      var c := cands[|cands| - 1];
      TasksRun(
        if MarksFailed(c.attempt) then PurgeResource(prev.index, c.id) else prev.index,
        prev.results + [TaskOutcome(c.attempt)],
        prev.successes + (if Counted(c.attempt) then 1 else 0))
  }

  /** The number of tasks of a page whose reindex went through. */
  function Successes(cands: seq<Candidate>): nat
    decreases |cands|
  {
    if cands == [] then 0
    else (if Counted(cands[0].attempt) then 1 else 0) + Successes(cands[1..])
  }

  /** The non-null updated dates the futures of a page yield, in order. */
  function UpdatedDates(cands: seq<Candidate>): seq<Millis>
    decreases |cands|
  {
    if cands == [] then []
    else
      var init := UpdatedDates(cands[..|cands| - 1]);
      var a := cands[|cands| - 1].attempt;
      if !Throws(a) && a.updated.Some? then init + [a.updated.value] else init
  }

  /** The resources of a page that end up marked as failed. */
  function FailedIds(cands: seq<Candidate>): set<ResourceId> {
    set i | 0 <= i < |cands| && MarksFailed(cands[i].attempt) :: cands[i].id
  }

  lemma {:induction false} SuccessesAppend(a: seq<Candidate>, c: Candidate)
    ensures Successes(a + [c]) == Successes(a) + (if Counted(c.attempt) then 1 else 0)
    decreases |a|
  {
    if a != [] {
      assert (a + [c])[1..] == a[1..] + [c];
      SuccessesAppend(a[1..], c);
    }
  }

  /** Running a page gives one future per id, each saying what its task saw:
      an exception exactly when the task throws, the updated date it read otherwise. */
  lemma {:induction false} RunTasksFutures(ix: Index, cands: seq<Candidate>)
    ensures var r := RunTasks(ix, cands);
      && |r.results| == |cands|
      && (forall i :: 0 <= i < |cands| ==> r.results[i] == TaskOutcome(cands[i].attempt))
    decreases |cands|
  {
    if cands != [] {
      RunTasksFutures(ix, cands[..|cands| - 1]);
    }
  }

  /** Some future of a page throws exactly when some task of the page throws. */
  lemma {:induction false} RunTasksThrows(ix: Index, cands: seq<Candidate>)
    ensures Threw in RunTasks(ix, cands).results <==> exists i :: 0 <= i < |cands| && Throws(cands[i].attempt)
    decreases |cands|
  {
    if cands != [] {
      var init := cands[..|cands| - 1];
      var c := cands[|cands| - 1];
      RunTasksThrows(ix, init);
      var prev := RunTasks(ix, init);
      assert Threw in prev.results + [TaskOutcome(c.attempt)] <==> Threw in prev.results || Throws(c.attempt);
      if Threw in prev.results {
        var i :| 0 <= i < |init| && Throws(init[i].attempt);
        assert cands[i] == init[i];
      }
      if exists i :: 0 <= i < |cands| && Throws(cands[i].attempt) {
        var i :| 0 <= i < |cands| && Throws(cands[i].attempt);
        if i < |init| { assert init[i] == cands[i]; }
      }
    }
  }

  /** The dates the futures of a page yield are the updated dates read by its
      tasks that did not throw. */
  lemma {:induction false} RunTasksDates(ix: Index, cands: seq<Candidate>)
    ensures Dates(RunTasks(ix, cands).results) == UpdatedDates(cands)
    decreases |cands|
  {
    if cands != [] {
      var init := cands[..|cands| - 1];
      var c := cands[|cands| - 1];
      RunTasksDates(ix, init);
      RunTasksFutures(ix, init);
      var prev := RunTasks(ix, init);
      var results := prev.results + [TaskOutcome(c.attempt)];
      assert results[..|results| - 1] == prev.results;
    }
  }

  /** The counter of a page ends at the number of reindexes that went through. */
  lemma {:induction false} RunTasksCount(ix: Index, cands: seq<Candidate>)
    ensures RunTasks(ix, cands).successes == Successes(cands)
    decreases |cands|
  {
    if cands != [] {
      var init := cands[..|cands| - 1];
      var c := cands[|cands| - 1];
      RunTasksCount(ix, init);
      assert cands == init + [c];
      SuccessesAppend(init, c);
    }
  }

  /** The failed set of a page grows by the last id exactly when that task
      failed other than by a version conflict. */
  lemma FailedIdsSnoc(init: seq<Candidate>, c: Candidate)
    ensures FailedIds(init + [c]) == if MarksFailed(c.attempt) then FailedIds(init) + {c.id} else FailedIds(init)
  {
    var cands := init + [c];
    var f0 := FailedIds(init);
    var f := FailedIds(cands);
    forall x | x in f ensures x in f0 || (MarksFailed(c.attempt) && x == c.id) {
      var i :| 0 <= i < |cands| && MarksFailed(cands[i].attempt) && cands[i].id == x;
      if i < |init| { assert init[i] == cands[i]; }
    }
    forall x | x in f0 ensures x in f {
      var i :| 0 <= i < |init| && MarksFailed(init[i].attempt) && init[i].id == x;
      assert cands[i] == init[i];
    }
    if MarksFailed(c.attempt) {
      assert cands[|init|] == c;
    }
  }

  /** Running a page takes from the index precisely the rows and links of the
      resources whose task failed other than by a version conflict, and flags
      those resources, and no others, as failed. */
  lemma {:induction false} RunTasksIndex(ix: Index, cands: seq<Candidate>)
    ensures var r := RunTasks(ix, cands);
      && r.index.rows == (set x | x in ix.rows && x.resource !in FailedIds(cands))
      && r.index.links == (set l | l in ix.links && l.source !in FailedIds(cands) && l.target !in FailedIds(cands))
      && r.index.status.Keys == ix.status.Keys
      && (forall x :: x in ix.status ==>
            r.index.status[x] == if x in FailedIds(cands) then IndexingFailed else ix.status[x])
    decreases |cands|
  {
    if cands != [] {
      var init := cands[..|cands| - 1];
      var c := cands[|cands| - 1];
      RunTasksIndex(ix, init);
      assert cands == init + [c];
      FailedIdsSnoc(init, c);
    }
  }
}
