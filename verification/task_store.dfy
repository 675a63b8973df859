/** The task counter record kept under the `taskData_v2` storage key:
    reading it back with defaults (`initTaskStorage`), the target editor's
    decision (`updateTarget`) and the at-most-once counting of a task id. */
module TaskStore {
  import opened Common

  /** What the storage key holds, after JSON parsing. `TaskMissing` is an
      absent key, `TaskCorrupt` text that does not parse or parses to a
      non-object. Numeric fields hold 0 where the stored value is falsy
      (absent, null, false, 0): the script only tests them for falsiness. A
      `history` of `None` is an absent or falsy `taskHistory`. */
  datatype StoredTask =
    | TaskMissing
    | TaskCorrupt
    | TaskStored(target: int, achieved: int, left: int, history: Option<seq<TaskId>>, count: int)

  /** The record as the script works with it after reading. */
  datatype TaskRecord = TaskRecord(target: int, achieved: int, left: int, history: seq<TaskId>, count: int)

  /** What a read returns: the record in memory and what the key holds
      afterwards (a read may write defaults back). */
  datatype TaskRead = TaskRead(data: TaskRecord, stored: StoredTask)

  /** Tasks still to do; never negative. */
  function LeftOf(target: int, achieved: int): int
  {
    Max(0, target - achieved)
  }

  const DefaultRecord: TaskRecord := TaskRecord(DefaultTarget, 0, DefaultTarget, [], 0)

  /** The stored form of an in-memory record (`saveTaskData`). */
  function Save(rec: TaskRecord): StoredTask
  {
    TaskStored(rec.target, rec.achieved, rec.left, Some(rec.history), rec.count)
  }

  /** A record as every read returns it: a non-zero target and `left`
      recomputed from target and achieved. */
  predicate Normalised(rec: TaskRecord)
  {
    rec.target != 0 && rec.left == LeftOf(rec.target, rec.achieved)
  }

  /** `initTaskStorage`: missing, unparseable, non-object or history-less data
      is replaced by the default record, which is also written back; usable
      data is left in storage as it is and normalised in memory, a falsy
      target becoming the default one. */
  function InitTaskStorage(stored: StoredTask): (r: TaskRead)
    ensures Normalised(r.data) && r.data.left >= 0
    ensures !(stored.TaskStored? && stored.history.Some?) ==>
              r.data == DefaultRecord && r.stored == Save(DefaultRecord)
    ensures stored.TaskStored? && stored.history.Some? ==>
              && r.stored == stored
              && r.data.history == stored.history.value
              && r.data.achieved == stored.achieved
              && r.data.count == stored.count
              && (stored.target != 0 ==> r.data.target == stored.target)
              && (stored.target == 0 ==> r.data.target == DefaultTarget)
  {
    match stored
    case TaskStored(target, achieved, _, Some(history), count) =>
      var t := if target != 0 then target else DefaultTarget;
      TaskRead(TaskRecord(t, achieved, LeftOf(t, achieved), history, count), stored)
    case _ =>
      TaskRead(DefaultRecord, Save(DefaultRecord))
  }

  /** The record the script sees when it reads the key. */
  function Observed(stored: StoredTask): TaskRecord
  {
    InitTaskStorage(stored).data
  }

  /** Saving a normalised record and reading it back gives the same record
      and writes nothing further. */
  lemma SaveRoundTrip(rec: TaskRecord)
    requires Normalised(rec)
    ensures InitTaskStorage(Save(rec)) == TaskRead(rec, Save(rec))
  {
  }

  /** A second read sees what the first one returned and leaves storage as
      the first one left it. */
  lemma InitTaskStorageIdempotent(stored: StoredTask)
    ensures InitTaskStorage(InitTaskStorage(stored).stored) == InitTaskStorage(stored)
  {
  }

  /** `updateTarget` after the input has been parsed (`None` for text that
      `parseInt` rejects): a positive number becomes the target, `left` is
      recomputed and everything else is kept; any other input saves nothing,
      although the read it performs still writes defaults over unusable
      data. */
  function ApplyTarget(stored: StoredTask, input: Option<int>): (r: StoredTask)
    ensures var before := Observed(stored); var after := Observed(r);
      input.Some? && input.value > 0 ==>
        && after.target == input.value
        && after.left == LeftOf(input.value, before.achieved)
        && after.achieved == before.achieved
        && after.history == before.history
        && after.count == before.count
    ensures !(input.Some? && input.value > 0) ==>
              Observed(r) == Observed(stored) && r == InitTaskStorage(stored).stored
  {
    var data := InitTaskStorage(stored).data;
    if input.Some? && input.value > 0 then
      var rec := data.(target := input.value, left := LeftOf(input.value, data.achieved));
      SaveRoundTrip(rec);
      Save(rec)
    else
      InitTaskStorage(stored).stored
  }

  /** The counting step of the unload handler once the time budget is met:
      an id not yet in the history is appended and `achieved` and `count`
      grow by one; an id already there changes nothing. */
  function CountTask(stored: StoredTask, id: TaskId): (r: StoredTask)
    ensures id in Observed(r).history
    ensures var before := Observed(stored); var after := Observed(r);
      id in before.history ==> after == before && r == stored
    ensures var before := Observed(stored); var after := Observed(r);
      id !in before.history ==>
        && after.history == before.history + [id]
        && after.achieved == before.achieved + 1
        && after.count == before.count + 1
        && after.target == before.target
        && after.left == LeftOf(before.target, before.achieved + 1)
  {
    var data := InitTaskStorage(stored).data;
    if id in data.history then
      InitTaskStorage(stored).stored
    else
      var rec := data.(history := data.history + [id], achieved := data.achieved + 1,
                       left := LeftOf(data.target, data.achieved + 1), count := data.count + 1);
      SaveRoundTrip(rec);
      Save(rec)
  }

  predicate NoDuplicates(s: seq<TaskId>)
  {
    forall i, j :: 0 <= i < j < |s| ==> s[i] != s[j]
  }

  /** The bookkeeping the script maintains when it starts from an empty
      record: every counted id is in the history exactly once, and
      `achieved` and `count` are the number of counted ids. */
  predicate Consistent(rec: TaskRecord)
  {
    && Normalised(rec)
    && rec.target > 0
    && rec.achieved == |rec.history|
    && rec.count == |rec.history|
    && NoDuplicates(rec.history)
  }

  lemma DefaultConsistent()
    ensures Consistent(Observed(TaskMissing))
    ensures Consistent(Observed(TaskCorrupt))
  {
  }

  /** Counting keeps the history free of duplicates and `achieved` equal to
      its length, so no id is ever counted twice. */
  lemma CountTaskConsistent(stored: StoredTask, id: TaskId)
    requires Consistent(Observed(stored))
    ensures Consistent(Observed(CountTask(stored, id)))
  {
  }

  lemma ApplyTargetConsistent(stored: StoredTask, input: Option<int>)
    requires Consistent(Observed(stored))
    ensures Consistent(Observed(ApplyTarget(stored, input)))
  {
  }

  /** Example: one qualifying task on a fresh record gives achieved 1 and 699 left. */
  lemma FirstTaskExample(id: TaskId)
    ensures Observed(CountTask(TaskMissing, id)) == TaskRecord(700, 1, 699, [id], 1)
  {
  }
}
