/** One batch of `runReindexJob` seen from the job: the futures of its tasks,
    the loop that reads them, and the rule that picks the job's next
    `thresholdLow` from what that loop found. */
module ReindexJobRun {
  import opened JobStore

  /** What `Future.get()` gives for one reindexing task: the resource's updated
      date, a null date, or an exception. */
  datatype TaskResult = Date(t: Millis) | NoDate | Threw

  /** The state of the futures loop: still collecting (`latestDate`,
      `haveMultipleDates`), or left early because a future threw. */
  datatype Collected = Aborted | Gathered(latestDate: Option<Millis>, haveMultipleDates: bool)

  /** One turn of the futures loop. */
  function CollectStep(acc: Collected, next: TaskResult): Collected {
    match acc
    case Aborted => Aborted
    case Gathered(latest, multiple) =>
      match next
      case Threw => Aborted
      case NoDate => acc
      case Date(t) =>
        Gathered(
          if latest.None? || latest.value < t then Some(t) else latest,
          multiple || (latest.Some? && latest.value != t))
  }

  /** The futures loop run over `results` in order. */
  function Collect(results: seq<TaskResult>): Collected
    decreases |results|
  {
    if results == [] then Gathered(None, false)
    else CollectStep(Collect(results[..|results| - 1]), results[|results| - 1])
  }

  /** The non-null dates among `results`, in order. */
  function Dates(results: seq<TaskResult>): seq<Millis>
    decreases |results|
  {
    if results == [] then []
    else
      var init := Dates(results[..|results| - 1]);
      match results[|results| - 1]
      case Date(t) => init + [t]
      case _ => init
  }

  predicate AllEqual(s: seq<Millis>) {
    forall i, j :: 0 <= i < |s| && 0 <= j < |s| ==> s[i] == s[j]
  }

  predicate IsMax(s: seq<Millis>, m: Millis) {
    m in s && forall i :: 0 <= i < |s| ==> s[i] <= m
  }

  /** The futures loop stops early exactly when some task threw; otherwise
      `latestDate` is the largest non-null date (null when there is none) and
      `haveMultipleDates` holds exactly when the non-null dates are not all equal. */
  lemma {:induction false} CollectMeaning(results: seq<TaskResult>)
    ensures Collect(results).Aborted? <==> Threw in results
    ensures Collect(results).Gathered? ==>
      && (Collect(results).latestDate.None? <==> Dates(results) == [])
      && (Collect(results).latestDate.Some? ==> IsMax(Dates(results), Collect(results).latestDate.value))
      && (Collect(results).haveMultipleDates <==> !AllEqual(Dates(results)))
    decreases |results|
  {
    if results != [] {
      var init := results[..|results| - 1];
      var last := results[|results| - 1];
      CollectMeaning(init);
      assert results == init + [last];
      assert Threw in results <==> Threw in init || last == Threw;
      var d := Dates(init);
      match last
      case Threw =>
      case NoDate =>
      case Date(t) =>
        if Collect(init).Gathered? {
          var latest := Collect(init).latestDate;
          var d' := d + [t];
          assert Dates(results) == d';
          if latest.Some? {
            var m := latest.value;
            if AllEqual(d) {
              if m == t {
                assert forall i :: 0 <= i < |d'| ==> d'[i] == t by {
                  forall i | 0 <= i < |d'| ensures d'[i] == t {
                    if i < |d| {
                      var k :| 0 <= k < |d| && d[k] == m;
                      assert d[i] == d[k];
                    }
                  }
                }
              } else {
                var k :| 0 <= k < |d| && d[k] == m;
                assert d'[k] == m && d'[|d|] == t;
              }
            } else {
              var i, j :| 0 <= i < |d| && 0 <= j < |d| && d[i] != d[j];
              assert d'[i] != d'[j];
            }
            if m < t {
              assert IsMax(d', t);
            } else {
              var k :| 0 <= k < |d| && d[k] == m;
              assert d'[k] == m;
              assert IsMax(d', m);
            }
          } else {
            assert d == [];
            assert d' == [t];
          }
        }
    }
  }

  /** The new `thresholdLow` of a job whose page produced at least one date. */
  function NewThresholdLow(low: Millis, latestDate: Millis, haveMultipleDates: bool): Millis {
    if latestDate == low then latestDate + 1
    else if !haveMultipleDates then latestDate + 1
    else latestDate
  }

  /** The cursor rule stated on the dates themselves. */
  lemma CursorRule(results: seq<TaskResult>, low: Millis)
    requires Threw !in results && Dates(results) != []
    ensures Collect(results).Gathered? && Collect(results).latestDate.Some?
    ensures var c := Collect(results);
      var d := Dates(results);
      var next := NewThresholdLow(low, c.latestDate.value, c.haveMultipleDates);
      && (AllEqual(d) && d[0] != low ==> next == d[0] + 1)
      && (!AllEqual(d) && c.latestDate.value != low ==> IsMax(d, next))
      && (IsMax(d, low) ==> next == low + 1)
  {
    CollectMeaning(results);
    var c := Collect(results);
    var d := Dates(results);
    var m := c.latestDate.value;
    var k :| 0 <= k < |d| && d[k] == m;
    if AllEqual(d) {
      assert d[0] == d[k];
    }
    if IsMax(d, low) {
      assert low <= m && m <= low;
    }
  }

  /** The cursor always moves forward when every date is at or after the old
      cursor, and never past `thresholdHigh` when every date is before it. */
  lemma CursorProgress(results: seq<TaskResult>, low: Millis, high: Millis)
    requires Threw !in results && Dates(results) != []
    requires forall i :: 0 <= i < |Dates(results)| ==> low <= Dates(results)[i]
    ensures Collect(results).Gathered? && Collect(results).latestDate.Some?
    ensures var c := Collect(results);
      var next := NewThresholdLow(low, c.latestDate.value, c.haveMultipleDates);
      && low < next
      && ((forall i :: 0 <= i < |Dates(results)| ==> Dates(results)[i] < high) ==> next <= high)
  {
    CollectMeaning(results);
    var d := Dates(results);
    var m := Collect(results).latestDate.value;
    var k :| 0 <= k < |d| && d[k] == m;
    assert low <= m;
  }

  /** Three resources updated at T0+1, T0+1 and T0+2: the cursor stops at
      T0+2 itself, since other resources may share that millisecond. */
  lemma VaryingDatesKeepLatest(t0: Millis)
    requires t0 + 2 != BeginningOfTime
    ensures Collect([Date(t0 + 1), Date(t0 + 1), Date(t0 + 2)]) == Gathered(Some(t0 + 2), true)
    ensures NewThresholdLow(BeginningOfTime, t0 + 2, true) == t0 + 2
  {
    var rs := [Date(t0 + 1), Date(t0 + 1), Date(t0 + 2)];
    assert rs[..2][..1] == [Date(t0 + 1)];
    assert rs[..2] == [Date(t0 + 1), Date(t0 + 1)];
    assert [Date(t0 + 1)][..0] == [];
    assert Collect([Date(t0 + 1)]) == Gathered(Some(t0 + 1), false);
    assert Collect(rs[..2]) == Gathered(Some(t0 + 1), false);
  }

  /** Two resources both updated at T0: the cursor moves one millisecond past T0. */
  lemma EqualDatesStepPast(t0: Millis)
    requires t0 != BeginningOfTime
    ensures Collect([Date(t0), Date(t0)]) == Gathered(Some(t0), false)
    ensures NewThresholdLow(BeginningOfTime, t0, false) == t0 + 1
  {
    assert [Date(t0), Date(t0)][..1] == [Date(t0)];
    assert [Date(t0)][..0] == [];
    assert Collect([Date(t0)]) == Gathered(Some(t0), false);
  }
}
