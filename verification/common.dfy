/** Shared vocabulary of the tracker: optional values, identifiers and the
    script's fixed constants. */
module Common {

  /** A value that may be missing: a parsed number or a timer reading. */
  datatype Option<+T> = None | Some(value: T)

  /** A task id, taken from the `taskIds` query parameter of a task page. */
  type TaskId = string

  /** A calendar-day key such as "2024-05-17"; the script derives it from the
      clock, here it is supplied by the caller. */
  type DateKey = string

  /** Daily target a fresh task record starts with. */
  const DefaultTarget: int := 700

  /** A task is counted only if it was submitted within this many milliseconds. */
  const TaskTimeLimitMs: int := 2 * 60 * 1000

  /** Ceiling on the user time, in seconds, recorded for one task on one day. */
  const MaxUTPerTask: int := 120

  function Max(a: int, b: int): int { if a < b then b else a }

  function Min(a: int, b: int): int { if a < b then a else b }

  /** A reading of the task page's "M:SS" timer display, which shows the
      time spent on the task so far. */
  datatype Reading = Reading(minutes: nat, seconds: nat)
}
