/** The date-keyed user-time (UT) record kept under the `utData` storage key:
    reading it back with repairs (`initializeUT`), adding a session's seconds
    under the per-task ceiling (`updateUT`) and the live figure the dashboard
    shows while a task page is open. */
module UserTime {
  import opened Common

  /** A day's `tasks` member: an object of per-task seconds, `null`, or any
      other non-object value (absent included). */
  datatype StoredTasks = Tasks(secs: map<TaskId, int>) | NullTasks | NotAnObject

  /** A day entry: `NoDay` is a falsy entry (null, 0, ""), which the script
      treats like an absent one. A `total` of `None` is a non-number. */
  datatype StoredDay = NoDay | Day(total: Option<int>, tasks: StoredTasks)

  /** What the storage key holds, after JSON parsing: absent, unparseable or
      a non-object, or an object keyed by date. */
  datatype StoredUT = UTMissing | UTCorrupt | UTDays(days: map<DateKey, StoredDay>)

  /** What a read returns: the date map in memory and what the key holds
      afterwards. */
  datatype UTRead = UTRead(days: map<DateKey, StoredDay>, stored: StoredUT)

  /** A day entry every member of which can be used as the script uses it. */
  predicate WellFormedDay(d: StoredDay)
  {
    d.Day? && d.total.Some? && d.tasks.Tasks?
  }

  const EmptyDay: StoredDay := Day(Some(0), Tasks(map[]))

  /** The date map the script works on: unusable data reads as `{}`. */
  function DecodeUT(stored: StoredUT): map<DateKey, StoredDay>
  {
    if stored.UTDays? then stored.days else map[]
  }

  /** `utData[todayKey]` is truthy. */
  predicate HasDay(days: map<DateKey, StoredDay>, today: DateKey)
  {
    today in days && days[today].Day?
  }

  /** The repairs of an existing day entry: a non-number total becomes 0 and
      a `tasks` member that is not an object becomes `{}`. */
  function RepairDay(d: StoredDay): (r: StoredDay)
    requires d.Day?
    ensures WellFormedDay(r)
    ensures WellFormedDay(d) ==> r == d
    ensures d.total.Some? ==> r.total == d.total
    ensures d.tasks.Tasks? ==> r.tasks == d.tasks
    ensures d.total.None? ==> r.total == Some(0)
    ensures !d.tasks.Tasks? ==> r.tasks == Tasks(map[])
  {
    Day(Some(if d.total.Some? then d.total.value else 0),
        if d.tasks.Tasks? then d.tasks else Tasks(map[]))
  }

  /** `initializeUT`: today's entry is created empty, and the whole map
      written back, only when it is missing or falsy; an existing entry is
      repaired in memory only; other dates are kept as they are. */
  function InitializeUT(stored: StoredUT, today: DateKey): (r: UTRead)
    ensures today in r.days && WellFormedDay(r.days[today])
    ensures r.days.Keys == DecodeUT(stored).Keys + {today}
    ensures forall d :: d in r.days && d != today ==> r.days[d] == DecodeUT(stored)[d]
    ensures !HasDay(DecodeUT(stored), today) ==>
              r.days[today] == EmptyDay && r.stored == UTDays(r.days)
    ensures HasDay(DecodeUT(stored), today) ==>
              r.stored == stored && r.days[today] == RepairDay(DecodeUT(stored)[today])
  {
    var days := DecodeUT(stored);
    if !HasDay(days, today) then
      var created := days[today := EmptyDay];
      UTRead(created, UTDays(created))
    else
      UTRead(days[today := RepairDay(days[today])], stored)
  }

  /** A second read sees what the first one returned and leaves storage as
      the first one left it. */
  lemma InitializeUTIdempotent(stored: StoredUT, today: DateKey)
    ensures var first := InitializeUT(stored, today);
      InitializeUT(first.stored, today) == first
  {
  }

  /** `dailyData.tasks[taskId] || 0`: a task's recorded seconds, 0 if none. */
  function TaskUT(day: StoredDay, id: TaskId): int
    requires WellFormedDay(day)
  {
    if id in day.tasks.secs then day.tasks.secs[id] else 0
  }

  /** Seconds `updateUT` adds for a session, given what the task already has:
      the whole session unless that would pass the ceiling, else only what
      is left below it. */
  function AddedSecs(current: int, sessionSecs: int): (r: int)
    ensures sessionSecs >= 0 ==> 0 <= r <= sessionSecs
    ensures sessionSecs >= 0 ==> current + r == Min(current + sessionSecs, Max(current, MaxUTPerTask))
  {
    if current + sessionSecs > MaxUTPerTask then Max(0, MaxUTPerTask - current) else sessionSecs
  }

  /** The update `updateUT` makes to today's (repaired) entry: the task's
      seconds become `min(current + session, max(current, 120))`; the day's
      total grows by exactly what the task gained; nothing is written, not
      even a zero for a new task, when nothing is gained. */
  function AddSession(day: StoredDay, id: TaskId, sessionSecs: int): (r: StoredDay)
    requires WellFormedDay(day) && sessionSecs >= 0
    ensures WellFormedDay(r)
    ensures TaskUT(r, id) == Min(TaskUT(day, id) + sessionSecs, Max(TaskUT(day, id), MaxUTPerTask))
    ensures r.total.value == day.total.value + (TaskUT(r, id) - TaskUT(day, id))
    ensures forall k :: k != id ==> (k in r.tasks.secs <==> k in day.tasks.secs)
    ensures forall k :: k != id && k in r.tasks.secs ==> r.tasks.secs[k] == day.tasks.secs[k]
    ensures id in r.tasks.secs <==> id in day.tasks.secs || TaskUT(r, id) != TaskUT(day, id)
  {
    var current := TaskUT(day, id);
    var add := AddedSecs(current, sessionSecs);
    if add > 0 then
      Day(Some(day.total.value + add), Tasks(day.tasks.secs[id := current + add]))
    else
      day
  }

  /** `updateUT`, as far as the UT record goes: an empty task id or a
      negative session leaves the record alone; otherwise today's entry is
      read (with repairs), the session is added, and the whole map is
      written back. */
  function RecordUT(stored: StoredUT, today: DateKey, id: TaskId, sessionSecs: int): (r: StoredUT)
    ensures id == "" || sessionSecs < 0 ==> r == stored
    ensures id != "" && sessionSecs >= 0 ==>
      var before := InitializeUT(stored, today).days;
      && r.UTDays?
      && r.days.Keys == DecodeUT(stored).Keys + {today}
      && (forall d :: d in r.days && d != today ==> r.days[d] == DecodeUT(stored)[d])
      && WellFormedDay(r.days[today])
      && TaskUT(r.days[today], id)
         == Min(TaskUT(before[today], id) + sessionSecs, Max(TaskUT(before[today], id), MaxUTPerTask))
      && r.days[today].total.value
         == before[today].total.value + (TaskUT(r.days[today], id) - TaskUT(before[today], id))
      && (forall k :: k != id ==> (k in r.days[today].tasks.secs <==> k in before[today].tasks.secs))
      && (forall k :: k != id && k in r.days[today].tasks.secs ==>
            r.days[today].tasks.secs[k] == before[today].tasks.secs[k])
  {
    if id == "" || sessionSecs < 0 then stored
    else
      var days := InitializeUT(stored, today).days;
      UTDays(days[today := AddSession(days[today], id, sessionSecs)])
  }

  /** A session of 0 s gains nothing: only what the read returned is
      written back. */
  lemma ZeroSessionRecordsNothing(stored: StoredUT, today: DateKey, id: TaskId)
    requires id != ""
    ensures RecordUT(stored, today, id, 0) == UTDays(InitializeUT(stored, today).days)
  {
  }

  /** The ceiling: a task at or below 120 s stays there, and no session
      lowers a task's time. */
  lemma AddSessionCapped(day: StoredDay, id: TaskId, sessionSecs: int)
    requires WellFormedDay(day) && sessionSecs >= 0
    ensures TaskUT(day, id) <= TaskUT(AddSession(day, id, sessionSecs), id)
    ensures TaskUT(day, id) <= MaxUTPerTask ==> TaskUT(AddSession(day, id, sessionSecs), id) <= MaxUTPerTask
  {
  }

  /** A run of sessions for one task on one day, recorded one after another. */
  function RecordSessions(stored: StoredUT, today: DateKey, id: TaskId, sessions: seq<nat>): StoredUT
    decreases |sessions|
  {
    if sessions == [] then stored
    else RecordSessions(RecordUT(stored, today, id, sessions[0]), today, id, sessions[1..])
  }

  /** Today's seconds for a task as the script reads them. */
  function StoredTaskUT(stored: StoredUT, today: DateKey, id: TaskId): int
  {
    TaskUT(InitializeUT(stored, today).days[today], id)
  }

  /** However many session fragments a task contributes, its recorded time
      never passes the ceiling. */
  lemma {:induction false} RecordSessionsCapped(stored: StoredUT, today: DateKey, id: TaskId, sessions: seq<nat>)
    requires StoredTaskUT(stored, today, id) <= MaxUTPerTask
    ensures StoredTaskUT(RecordSessions(stored, today, id, sessions), today, id) <= MaxUTPerTask
    decreases |sessions|
  {
    if sessions != [] {
      var next := RecordUT(stored, today, id, sessions[0]);
      if id != "" {
        var day := InitializeUT(stored, today).days[today];
        AddSessionCapped(day, id, sessions[0]);
        assert InitializeUT(next, today).days[today] == next.days[today];
      }
      RecordSessionsCapped(next, today, id, sessions[1..]);
    }
  }

  /** Example: two 80 s sessions on a fresh day record 120 s
      for the task and add 120 s, not 160 s, to the day. */
  lemma TwoSessionsExample(today: DateKey, id: TaskId)
    requires id != ""
    ensures var r := RecordSessions(UTMissing, today, id, [80, 80]);
      r.UTDays? && today in r.days && r.days[today] == Day(Some(120), Tasks(map[id := 120]))
  {
  }

  /** The live figure of `updateDashboardUI`: today's total plus, on a task
      page with a readable timer, the timer's seconds cut to what the
      ceiling still allows that task. `id` is the page's task id, `None` off
      task pages. */
  function DisplayUT(stored: StoredUT, today: DateKey, id: Option<TaskId>, timer: Option<Reading>): (r: int)
    ensures var day := InitializeUT(stored, today).days[today];
      && day.total.value <= r
      && (id.Some? && id.value != "" ==> r <= day.total.value + Max(0, MaxUTPerTask - TaskUT(day, id.value)))
      && (id.None? || id.value == "" || timer.None? ==> r == day.total.value)
  {
    var day := InitializeUT(stored, today).days[today];
    if id.Some? && id.value != "" && timer.Some? then
      var elapsed := timer.value.minutes * 60 + timer.value.seconds;
      day.total.value + Min(elapsed, Max(0, MaxUTPerTask - TaskUT(day, id.value)))
    else
      day.total.value
  }

  /** The live figure previews exactly the day total that recording the
      same timer reading at unload would store. */
  lemma DisplayPreviewsRecord(stored: StoredUT, today: DateKey, id: TaskId, timer: Reading)
    requires id != ""
    ensures var after := RecordUT(stored, today, id, timer.minutes * 60 + timer.seconds);
      DisplayUT(stored, today, Some(id), Some(timer)) == after.days[today].total.value
  {
  }

  // ---------------------------------------------------------------------
  // The repair of a null `tasks` member, as the script writes it

  /** The repair as written: it tests `typeof tasks !== 'object'`, which is
      false for `null`, so a null `tasks` member is kept. */
  function RepairDayAsWritten(d: StoredDay): (r: StoredDay)
    requires d.Day?
    ensures r.Day? && r.total.Some? && !r.tasks.NotAnObject?
    ensures d.tasks.NullTasks? ==> r.tasks == NullTasks
  {
    Day(Some(if d.total.Some? then d.total.value else 0),
        if d.tasks.NotAnObject? then Tasks(map[]) else d.tasks)
  }

  /** `updateUT` as written, with `None` standing for the TypeError thrown
      when `dailyData.tasks[taskId]` is read on a null `tasks`; it is thrown
      before anything is written, and the unload handler swallows it. */
  function RecordUTAsWritten(stored: StoredUT, today: DateKey, id: TaskId, sessionSecs: int): (r: Option<StoredUT>)
    ensures var days := DecodeUT(stored);
      r.None? <==> id != "" && sessionSecs >= 0 && HasDay(days, today) && days[today].tasks.NullTasks?
  {
    if id == "" || sessionSecs < 0 then Some(stored)
    else
      var days := DecodeUT(stored);
      var read := if !HasDay(days, today) then days[today := EmptyDay]
                  else days[today := RepairDayAsWritten(days[today])];
      var day := read[today];
      if day.tasks.NullTasks? then None
      else Some(UTDays(read[today := AddSession(day, id, sessionSecs)]))
  }

  /** Away from a null `tasks` member the two versions agree. */
  lemma RecordUTAsWrittenAgrees(stored: StoredUT, today: DateKey, id: TaskId, sessionSecs: int)
    requires var days := DecodeUT(stored); !(HasDay(days, today) && days[today].tasks.NullTasks?)
    ensures RecordUTAsWritten(stored, today, id, sessionSecs) == Some(RecordUT(stored, today, id, sessionSecs))
  {
  }

  /** The input that shows the difference: with today's entry holding
      `tasks: null`, the script as written loses every session of the day,
      and keeps losing them since nothing repairs the entry; with the repair
      the session is recorded under the ceiling. */
  lemma NullTasksLoseSessions(today: DateKey, id: TaskId, sessionSecs: nat)
    requires id != ""
    ensures var stuck := UTDays(map[today := Day(Some(0), NullTasks)]);
      && RecordUTAsWritten(stuck, today, id, sessionSecs) == None
      && var fixed := RecordUT(stuck, today, id, sessionSecs);
         TaskUT(fixed.days[today], id) == Min(sessionSecs, MaxUTPerTask)
         && fixed.days[today].total == Some(Min(sessionSecs, MaxUTPerTask))
  {
  }

  // ---------------------------------------------------------------------
  // The daily total as the sum of the per-task seconds

  ghost function PickKey(m: map<TaskId, int>): TaskId
    requires m != map[]
  {
    var k :| k in m; k
  }

  /** Sum of the per-task seconds of a day. */
  ghost function SumSecs(m: map<TaskId, int>): int
    decreases |m|
  {
    if m == map[] then 0
    else
      var k := PickKey(m);
      assert (m - {k}).Keys == m.Keys - {k};
      m[k] + SumSecs(m - {k})
  }

  lemma {:induction false} SumSecsRemove(m: map<TaskId, int>, k: TaskId)
    requires k in m
    ensures SumSecs(m) == m[k] + SumSecs(m - {k})
    decreases |m|
  {
    var p := PickKey(m);
    if p != k {
      assert (m - {p}).Keys == m.Keys - {p};
      SumSecsRemove(m - {p}, k);
      assert (m - {k}).Keys == m.Keys - {k};
      SumSecsRemove(m - {k}, p);
      assert m - {p} - {k} == m - {k} - {p};
    }
  }

  lemma SumSecsUpdate(m: map<TaskId, int>, k: TaskId, v: int)
    ensures SumSecs(m[k := v]) == SumSecs(m) - (if k in m then m[k] else 0) + v
  {
    var m' := m[k := v];
    SumSecsRemove(m', k);
    assert m' - {k} == m - {k};
    if k in m {
      SumSecsRemove(m, k);
    } else {
      assert m - {k} == m;
    }
  }

  /** A day the script itself has written: the total is the sum of the
      per-task seconds and each of those is within the ceiling. */
  ghost predicate DayConsistent(d: StoredDay)
  {
    && WellFormedDay(d)
    && d.total.value == SumSecs(d.tasks.secs)
    && forall k :: k in d.tasks.secs ==> 0 <= d.tasks.secs[k] <= MaxUTPerTask
  }

  ghost predicate UTConsistent(stored: StoredUT)
  {
    forall d :: d in DecodeUT(stored) ==> DayConsistent(DecodeUT(stored)[d])
  }

  lemma InitializeUTConsistent(stored: StoredUT, today: DateKey)
    requires UTConsistent(stored)
    ensures var r := InitializeUT(stored, today);
      UTConsistent(r.stored) && forall d :: d in r.days ==> DayConsistent(r.days[d])
  {
  }

  /** Adding a session keeps the total equal to the sum of the per-task
      seconds and every task within the ceiling. */
  lemma AddSessionConsistent(day: StoredDay, id: TaskId, sessionSecs: int)
    requires DayConsistent(day) && sessionSecs >= 0
    ensures DayConsistent(AddSession(day, id, sessionSecs))
  {
    var current := TaskUT(day, id);
    var add := AddedSecs(current, sessionSecs);
    if add > 0 {
      SumSecsUpdate(day.tasks.secs, id, current + add);
    }
  }

  lemma RecordUTConsistent(stored: StoredUT, today: DateKey, id: TaskId, sessionSecs: int)
    requires UTConsistent(stored)
    ensures UTConsistent(RecordUT(stored, today, id, sessionSecs))
  {
    if id != "" && sessionSecs >= 0 {
      var days := InitializeUT(stored, today).days;
      InitializeUTConsistent(stored, today);
      AddSessionConsistent(days[today], id, sessionSecs);
    }
  }
}
