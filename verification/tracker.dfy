/** The tracker as a state machine over one browser tab: the two persisted
    records, the tab's session flags, and the events the script reacts to
    (page load, a click on a submit control, leaving the page, the reset
    button, the target editor and the once-a-second dashboard refresh). The
    clock (`now`, in milliseconds), the day key (`today`) and the reading of
    the page's timer are inputs. */
module Tracker {
  import opened Common
  import opened TaskStore
  import opened UserTime

  /** The two records the script keeps in page-level storage. */
  datatype Storage = Storage(task: StoredTask, ut: StoredUT)

  /** The tab-scoped session flags: the `taskStartTime_<id>` keys (a start
      time in milliseconds per task id), `submittedTask` and
      `skipTaskCountOnce`. */
  datatype Session = Session(startTimes: map<TaskId, int>, submitted: bool, skipOnce: bool)

  datatype Tab = Tab(storage: Storage, session: Session)

  /** A task page carries the task id of its `taskIds` query parameter, which
      may be empty. */
  datatype Page = TaskPage(id: TaskId) | OtherPage

  const FreshTab: Tab := Tab(Storage(TaskMissing, UTMissing), Session(map[], false, false))

  /** The storage writes of `updateDashboardUI`: it reads both records, and
      each read may write (defaults for the task record, today's entry for
      the UT record). What the script sees of either record is unchanged. */
  function Refresh(st: Storage, today: DateKey): (r: Storage)
    ensures Observed(r.task) == Observed(st.task)
    ensures InitializeUT(r.ut, today) == InitializeUT(st.ut, today)
    ensures r.task.TaskStored? && r.ut.UTDays?
  {
    InitTaskStorageIdempotent(st.task);
    InitializeUTIdempotent(st.ut, today);
    Storage(InitTaskStorage(st.task).stored, InitializeUT(st.ut, today).stored)
  }

  lemma RefreshIdempotent(st: Storage, today: DateKey)
    ensures Refresh(Refresh(st, today), today) == Refresh(st, today)
  {
  }

  /** `updateUT` with its closing dashboard refresh: an empty task id or a
      negative session touches neither record; otherwise the session is
      recorded and the task record is read (possibly written with defaults)
      but not changed. */
  function UpdateUT(st: Storage, today: DateKey, id: TaskId, sessionSecs: int): (r: Storage)
    ensures id == "" || sessionSecs < 0 ==> r == st
    ensures id != "" && sessionSecs >= 0 ==>
              && r.ut == RecordUT(st.ut, today, id, sessionSecs)
              && r.task == InitTaskStorage(st.task).stored
              && Observed(r.task) == Observed(st.task)
  {
    if id == "" || sessionSecs < 0 then st
    else Refresh(Storage(st.task, RecordUT(st.ut, today, id, sessionSecs)), today)
  }

  /** `updateTarget` with its dashboard refresh: a positive parsed number
      becomes the target and `left` follows it, achieved, history and count
      kept; anything else changes nothing the script can see. */
  function UpdateTarget(st: Storage, today: DateKey, input: Option<int>): (r: Storage)
    ensures var before := Observed(st.task); var after := Observed(r.task);
      input.Some? && input.value > 0 ==>
        && after == before.(target := input.value, left := LeftOf(input.value, before.achieved))
        && r.ut == InitializeUT(st.ut, today).stored
    ensures !(input.Some? && input.value > 0) ==>
              Observed(r.task) == Observed(st.task) && r.ut == st.ut
  {
    var task := ApplyTarget(st.task, input);
    if input.Some? && input.value > 0 then Refresh(Storage(task, st.ut), today)
    else Storage(task, st.ut)
  }

  /** Loading a page (`main`): the dashboard is built and refreshed, which
      reads both records; on a task page with an id the task's start time is
      recorded unless the tab already has one; any other page clears every
      start time. */
  function LoadPage(tab: Tab, page: Page, now: int, today: DateKey): (r: Tab)
    ensures Observed(r.storage.task) == Observed(tab.storage.task)
    ensures InitializeUT(r.storage.ut, today) == InitializeUT(tab.storage.ut, today)
    ensures HasDay(DecodeUT(r.storage.ut), today)
    ensures r.session.submitted == tab.session.submitted && r.session.skipOnce == tab.session.skipOnce
    ensures page.OtherPage? ==> r.session.startTimes == map[]
    ensures page.TaskPage? && page.id != "" ==>
              && page.id in r.session.startTimes
              && r.session.startTimes[page.id]
                 == (if page.id in tab.session.startTimes then tab.session.startTimes[page.id] else now)
              && r.session.startTimes - {page.id} == tab.session.startTimes - {page.id}
    ensures page.TaskPage? && page.id == "" ==> r.session == tab.session
  {
    var st := Refresh(Refresh(tab.storage, today), today);
    var ses := tab.session;
    match page
    case TaskPage(id) =>
      if id != "" && id !in ses.startTimes then Tab(st, ses.(startTimes := ses.startTimes[id := now]))
      else Tab(st, ses)
    case OtherPage =>
      Tab(st, ses.(startTimes := map[]))
  }

  /** A click on one of the page's submit controls sets `submittedTask`
      and nothing else. */
  function ClickSubmit(tab: Tab): (r: Tab)
    ensures r.session.submitted
    ensures r.storage == tab.storage
    ensures r.session.startTimes == tab.session.startTimes && r.session.skipOnce == tab.session.skipOnce
  {
    tab.(session := tab.session.(submitted := true))
  }

  /** The task's start time, or 0 when none is stored (`parseInt` of a
      missing key is NaN, which the handler treats like 0). */
  function StartTime(ses: Session, id: TaskId): (r: int)
    ensures id in ses.startTimes ==> r == ses.startTimes[id]
    ensures id !in ses.startTimes ==> r == 0
  {
    if id in ses.startTimes then ses.startTimes[id] else 0
  }

  /** The handler's time test: a start time exists and at most two minutes
      have passed since it. */
  function WithinBudget(ses: Session, id: TaskId, now: int): (b: bool)
    ensures b <==> id in ses.startTimes && ses.startTimes[id] != 0
                   && now - ses.startTimes[id] <= TaskTimeLimitMs
  {
    StartTime(ses, id) != 0 && now - StartTime(ses, id) <= TaskTimeLimitMs
  }

  /** Whether leaving the page counts the task. */
  predicate Counts(tab: Tab, id: TaskId, now: int)
  {
    && !tab.session.skipOnce
    && tab.session.submitted
    && WithinBudget(tab.session, id, now)
    && id !in Observed(tab.storage.task).history
  }

  /** Whether leaving the page records the timer's seconds. */
  predicate RecordsUT(tab: Tab, timer: Option<Reading>)
  {
    !tab.session.skipOnce && tab.session.submitted && timer.Some?
  }

  function Elapsed(reading: Reading): nat
  {
    reading.minutes * 60 + reading.seconds
  }

  /** The `beforeunload` handler of a task page. With the skip flag set it
      consumes the flag and the start time and stops; without a submit it
      drops the start time and stops. Otherwise it consumes the submit flag
      and the start time, counts the task if the time budget is met and the
      id is new, and, independently, records the timer's seconds. */
  function Unload(tab: Tab, id: TaskId, now: int, today: DateKey, timer: Option<Reading>): (r: Tab)
    requires id != ""
    ensures r.session.startTimes == tab.session.startTimes - {id}
    ensures !r.session.skipOnce
    ensures r.session.submitted == (tab.session.submitted && tab.session.skipOnce)
    ensures tab.session.skipOnce || !tab.session.submitted ==> r.storage == tab.storage
    ensures var before := Observed(tab.storage.task); var after := Observed(r.storage.task);
      && after.target == before.target
      && (Counts(tab, id, now) ==>
            && after.history == before.history + [id]
            && after.achieved == before.achieved + 1
            && after.count == before.count + 1
            && after.left == LeftOf(before.target, before.achieved + 1))
      && (!Counts(tab, id, now) ==> after == before)
    ensures RecordsUT(tab, timer) ==> r.storage.ut == RecordUT(tab.storage.ut, today, id, Elapsed(timer.value))
    ensures !RecordsUT(tab, timer) ==> r.storage.ut == tab.storage.ut
  {
    var ses := tab.session;
    if ses.skipOnce then
      Tab(tab.storage, ses.(skipOnce := false, startTimes := ses.startTimes - {id}))
    else if !ses.submitted then
      Tab(tab.storage, ses.(startTimes := ses.startTimes - {id}))
    else
      var ses' := ses.(submitted := false, startTimes := ses.startTimes - {id});
      var task := if WithinBudget(ses, id, now) then CountTask(tab.storage.task, id) else tab.storage.task;
      var st := Storage(task, tab.storage.ut);
      match timer
      case None => Tab(st, ses')
      case Some(reading) => Tab(UpdateUT(st, today, id, Elapsed(reading)), ses')
  }

  /** The reset button, once confirmed: both records are removed, the next
      unload is told to skip counting, and every task start time is
      dropped; the submit flag is left as it is. */
  function Reset(tab: Tab, confirmed: bool): (r: Tab)
    ensures !confirmed ==> r == tab
    ensures confirmed ==>
              && Observed(r.storage.task) == DefaultRecord
              && DecodeUT(r.storage.ut) == map[]
              && r.session.skipOnce
              && r.session.startTimes == map[]
              && r.session.submitted == tab.session.submitted
  {
    if confirmed then Tab(Storage(TaskMissing, UTMissing), Session(map[], tab.session.submitted, true))
    else tab
  }

  // ---------------------------------------------------------------------
  // Runs of events

  datatype Event =
    | Load(page: Page, now: int, today: DateKey)
    | Submit
    | Leave(id: TaskId, now: int, today: DateKey, timer: Option<Reading>)
    | ResetAll(confirmed: bool)
    | SetTarget(today: DateKey, input: Option<int>)
    | Tick(today: DateKey)

  /** One event. Leaving a page whose task id is empty does nothing: the
      script registers its unload handler only when there is an id. A tick
      is the once-a-second dashboard refresh of a task page. */
  function Step(tab: Tab, e: Event): Tab
  {
    match e
    case Load(page, now, today) => LoadPage(tab, page, now, today)
    case Submit => ClickSubmit(tab)
    case Leave(id, now, today, timer) => if id == "" then tab else Unload(tab, id, now, today, timer)
    case ResetAll(confirmed) => Reset(tab, confirmed)
    case SetTarget(today, input) => Tab(UpdateTarget(tab.storage, today, input), tab.session)
    case Tick(today) => Tab(Refresh(tab.storage, today), tab.session)
  }

  function Run(tab: Tab, events: seq<Event>): Tab
    decreases |events|
  {
    if events == [] then tab else Run(Step(tab, events[0]), events[1..])
  }

  /** What the script keeps true of its records when it starts from empty
      storage: the history lists each counted id once, `achieved` and
      `count` are its length, `left` follows target and achieved, and every
      day's total is the sum of its tasks' seconds, each within the
      ceiling. */
  ghost predicate Invariant(tab: Tab)
  {
    Consistent(Observed(tab.storage.task)) && UTConsistent(tab.storage.ut)
  }

  lemma FreshTabInvariant()
    ensures Invariant(FreshTab)
  {
  }

  lemma RefreshInvariant(st: Storage, today: DateKey)
    requires Consistent(Observed(st.task)) && UTConsistent(st.ut)
    ensures Consistent(Observed(Refresh(st, today).task)) && UTConsistent(Refresh(st, today).ut)
  {
  }

  lemma UnloadInvariant(tab: Tab, id: TaskId, now: int, today: DateKey, timer: Option<Reading>)
    requires id != "" && Invariant(tab)
    ensures Invariant(Unload(tab, id, now, today, timer))
  {
    if !tab.session.skipOnce && tab.session.submitted {
      if WithinBudget(tab.session, id, now) {
        CountTaskConsistent(tab.storage.task, id);
      }
      if timer.Some? {
        RecordUTConsistent(tab.storage.ut, today, id, Elapsed(timer.value));
      }
    }
  }

  lemma StepInvariant(tab: Tab, e: Event)
    requires Invariant(tab)
    ensures Invariant(Step(tab, e))
  {
    match e
    case Load(page, now, today) =>
      RefreshInvariant(tab.storage, today);
      RefreshInvariant(Refresh(tab.storage, today), today);
    case Submit =>
    case Leave(id, now, today, timer) =>
      if id != "" {
        UnloadInvariant(tab, id, now, today, timer);
      }
    case ResetAll(confirmed) =>
    case SetTarget(today, input) =>
      ApplyTargetConsistent(tab.storage.task, input);
      if input.Some? && input.value > 0 {
        RefreshInvariant(Storage(ApplyTarget(tab.storage.task, input), tab.storage.ut), today);
      }
    case Tick(today) =>
      RefreshInvariant(tab.storage, today);
  }

  /** Whatever the script goes through, starting from a state that satisfies
      the invariant (empty storage does), no task id is counted twice and
      no task's recorded time passes the ceiling. */
  lemma {:induction false} RunInvariant(tab: Tab, events: seq<Event>)
    requires Invariant(tab)
    ensures Invariant(Run(tab, events))
    decreases |events|
  {
    if events != [] {
      StepInvariant(tab, events[0]);
      RunInvariant(Step(tab, events[0]), events[1..]);
    }
  }

  /** The invariant spelled out for any run from empty storage. */
  lemma {:induction false} AtMostOnceFromFreshTab(events: seq<Event>)
    ensures var rec := Observed(Run(FreshTab, events).storage.task);
      rec.achieved == |rec.history| && NoDuplicates(rec.history) && rec.left == LeftOf(rec.target, rec.achieved)
    ensures var days := DecodeUT(Run(FreshTab, events).storage.ut);
      forall d :: d in days ==>
        && WellFormedDay(days[d])
        && days[d].total.value == SumSecs(days[d].tasks.secs)
        && forall k :: k in days[d].tasks.secs ==> 0 <= days[d].tasks.secs[k] <= MaxUTPerTask
  {
    FreshTabInvariant();
    RunInvariant(FreshTab, events);
  }

  // ---------------------------------------------------------------------
  // Single-step properties

  /** An id already in the history is never counted again. */
  lemma CountedIdNotRecounted(tab: Tab, id: TaskId, now: int, today: DateKey, timer: Option<Reading>)
    requires id != "" && id in Observed(tab.storage.task).history
    ensures Observed(Unload(tab, id, now, today, timer).storage.task) == Observed(tab.storage.task)
  {
  }

  /** A submit more than two minutes after the start never counts. */
  lemma OverBudgetNotCounted(tab: Tab, id: TaskId, now: int, today: DateKey, timer: Option<Reading>)
    requires id != "" && now - StartTime(tab.session, id) > TaskTimeLimitMs
    ensures Observed(Unload(tab, id, now, today, timer).storage.task).achieved
         == Observed(tab.storage.task).achieved
  {
  }

  /** What leaving the page does to the UT record does not depend on the
      clock, that is on whether the task was counted. */
  lemma RecordingIndependentOfCounting(tab: Tab, id: TaskId, now1: int, now2: int, today: DateKey, timer: Option<Reading>)
    requires id != ""
    ensures Unload(tab, id, now1, today, timer).storage.ut == Unload(tab, id, now2, today, timer).storage.ut
  {
  }

  /** The reload that follows a reset fires the unload handler, which
      consumes the skip flag and counts and records nothing; the next read
      of the task record gives the defaults. */
  lemma ResetThenUnload(tab: Tab, id: TaskId, now: int, today: DateKey, timer: Option<Reading>)
    requires id != ""
    ensures var r := Unload(Reset(tab, true), id, now, today, timer);
      && r.storage == Storage(TaskMissing, UTMissing)
      && Observed(r.storage.task) == DefaultRecord
      && !r.session.skipOnce
      && r.session.startTimes == map[]
  {
  }

  /** Example, end to end: on empty storage, open task `id`
      at t = 1000 ms, submit, and leave at t = 61000 ms with the timer
      showing 1:00; the task is counted (achieved 1, 699 left) and 60 s are
      recorded for it and for the day. */
  lemma FirstTaskScenario(id: TaskId, today: DateKey)
    requires id != ""
    ensures var r := Run(FreshTab, [Load(TaskPage(id), 1000, today), Submit,
                                    Leave(id, 61000, today, Some(Reading(1, 0)))]);
      && Observed(r.storage.task) == TaskRecord(700, 1, 699, [id], 1)
      && r.storage.ut == UTDays(map[today := Day(Some(60), Tasks(map[id := 60]))])
  {
    var evs := [Load(TaskPage(id), 1000, today), Submit, Leave(id, 61000, today, Some(Reading(1, 0)))];
    var t1 := Step(FreshTab, evs[0]);
    var t2 := Step(t1, evs[1]);
    var t3 := Step(t2, evs[2]);
    RunThree(FreshTab, evs);
    FirstTaskLoaded(id, today);
    FirstTaskLeft(t2, id, today);
  }

  lemma RunThree(tab: Tab, evs: seq<Event>)
    requires |evs| == 3
    ensures Run(tab, evs) == Step(Step(Step(tab, evs[0]), evs[1]), evs[2])
  {
    var t1 := Step(tab, evs[0]);
    var t2 := Step(t1, evs[1]);
    var t3 := Step(t2, evs[2]);
    assert evs[1..][0] == evs[1] && evs[1..][1..] == [evs[2]];
    assert Run(t3, []) == t3;
    assert Run(t2, [evs[2]]) == Run(t3, []);
    assert Run(t1, evs[1..]) == Run(t2, [evs[2]]);
  }

  lemma FirstTaskLoaded(id: TaskId, today: DateKey)
    requires id != ""
    ensures var t := LoadPage(FreshTab, TaskPage(id), 1000, today);
      && t.session.startTimes == map[id := 1000]
      && !t.session.submitted && !t.session.skipOnce
      && Observed(t.storage.task) == DefaultRecord
      && t.storage.ut == UTDays(map[today := EmptyDay])
  {
  }

  lemma FirstTaskLeft(t: Tab, id: TaskId, today: DateKey)
    requires id != ""
    requires var t1 := LoadPage(FreshTab, TaskPage(id), 1000, today); t == ClickSubmit(t1)
    ensures var r := Unload(t, id, 61000, today, Some(Reading(1, 0)));
      && Observed(r.storage.task) == TaskRecord(700, 1, 699, [id], 1)
      && r.storage.ut == UTDays(map[today := Day(Some(60), Tasks(map[id := 60]))])
  {
    FirstTaskLoaded(id, today);
    assert Counts(t, id, 61000);
    assert InitializeUT(t.storage.ut, today).days == map[today := EmptyDay];
    assert AddSession(EmptyDay, id, 60) == Day(Some(60), Tasks(map[id := 60]));
  }
}
