/** The prediction lock rule (src/lib/matchUtils.ts) and the guard that the
    prediction service runs before every write
    (src/lib/appwrite/services/predictionService.ts). The current time is a
    parameter; instants are integer milliseconds. */
module MatchUtils {

  /** The statuses that lock a match whatever its start time. */
  const LockingStatuses: set<string> := {"in_progress", "completed", "canceled"}

  /** The lock window before the start, in milliseconds (two minutes). */
  const LockWindowMs: int := 120000

  /** `isMatchLocked`: a match is locked when its status is one of the
      locking ones, or when it starts less than two minutes from now. The
      difference is converted to minutes by exact division. */
  function IsMatchLocked(status: string, startMs: int, nowMs: int): (locked: bool)
    ensures status in LockingStatuses ==> locked
    ensures status !in LockingStatuses ==> (locked <==> startMs - nowMs < LockWindowMs)
  {
    if status == "in_progress" || status == "completed" || status == "canceled" then true
    else
      var diffMs := startMs - nowMs;
      var diffMinutes := diffMs as real / (1000.0 * 60.0);
      diffMinutes < 2.0
  }

  /** The comparison is strict: a match starting exactly two minutes from
      now can still be predicted unless its status locks it. */
  lemma OpenAtExactlyTwoMinutes(status: string, nowMs: int)
    requires status !in LockingStatuses
    ensures !IsMatchLocked(status, nowMs + LockWindowMs, nowMs)
  {
  }

  /** A match that has started is locked. */
  lemma LockedOnceStarted(status: string, startMs: int, nowMs: int)
    requires startMs <= nowMs
    ensures IsMatchLocked(status, startMs, nowMs)
  {
  }

  /** Once locked, a match stays locked as time goes on. */
  lemma LockIsMonotonic(status: string, startMs: int, nowMs: int, laterMs: int)
    requires nowMs <= laterMs
    requires IsMatchLocked(status, startMs, nowMs)
    ensures IsMatchLocked(status, startMs, laterMs)
  {
  }

  /** The outcome of the service's check before a write. */
  datatype WriteCheck = WriteAllowed | WriteRejected(message: string)

  /** Lines 15-17 and 42-44 of the prediction service: a write for a locked
      match is rejected with an error, any other goes ahead. */
  function CheckPredictionWrite(status: string, startMs: int, nowMs: int): (r: WriteCheck)
    ensures r.WriteAllowed? <==> status !in LockingStatuses && startMs - nowMs >= LockWindowMs
    ensures r.WriteRejected? ==> r.message == "Prediction is locked for this match."
  {
    if IsMatchLocked(status, startMs, nowMs) then WriteRejected("Prediction is locked for this match.")
    else WriteAllowed
  }
}
