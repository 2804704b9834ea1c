/** A schedule names, turn by turn, who takes the next statement. */
module Schedules {
  /** How many turns of the schedule are this one's. */
  function TurnsOf(schedule: seq<nat>, i: nat): nat {
    if schedule == [] then 0 else (if schedule[0] == i then 1 else 0) + TurnsOf(schedule[1..], i)
  }
}
