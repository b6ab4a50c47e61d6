/**
 * The system event log: timestamped events appended one at a time, the
 * last few read back, and the whole log cleared. The timestamp
 * ("%Y-%m-%d %H:%M:%S") is a parameter.
 */
module SystemLogs {
  import opened PySeq

  /** How many events `get_recent_logs` returns when not told. */
  const DefaultRecentCount := 10

  /** `{"timestamp": ..., "event_type": ..., "message": ...}`. */
  datatype Event = Event(timestamp: string, eventType: string, message: string)

  /**
   * Logging one more event and then reading back the last `n` gives the new
   * event alone for `n == 1`, and for `n >= 2` the last `n - 1` read before
   * followed by the new event (`n - 1 == 0` would read the whole log).
   */
  lemma {:induction false} RecentAfterLogging(log: seq<Event>, e: Event, n: int)
    requires n >= 1
    ensures n == 1 ==> Suffix(log + [e], n) == [e]
    ensures n >= 2 ==> Suffix(log + [e], n) == Suffix(log, n - 1) + [e]
  {
    var after := Suffix(log + [e], n);
    assert after == (log + [e])[|log| + 1 - |after|..];
    if n >= 2 {
      var before := Suffix(log, n - 1);
      assert |after| == |before| + 1;
      assert before == log[|log| - |before|..];
      assert (log + [e])[|log| + 1 - |after|..] == log[|log| - |before|..] + [e];
    }
  }

  class SystemLogger {
    var logData: seq<Event>

    /** A logger over the events loaded from disk. */
    constructor(stored: seq<Event>)
      ensures logData == stored
    {
      logData := stored;
    }

    /** `log_event(event_type, message)` at `timestamp`: one event at the end. */
    method LogEvent(eventType: string, message: string, timestamp: string)
      modifies this
      ensures logData == old(logData) + [Event(timestamp, eventType, message)]
    {
      logData := logData + [Event(timestamp, eventType, message)];
    }

    /**
     * `get_recent_logs(last_n)`, the slice `log_data[-last_n:]`: the last
     * `last_n` events in order for a positive count (all of them when there
     * are fewer), the whole log for 0, and the log without its first
     * `-last_n` events for a negative count. The log itself is not changed.
     */
    function GetRecentLogs(lastN: int): (r: seq<Event>)
      reads this
      ensures |r| <= |logData| && r == logData[|logData| - |r|..]
      ensures lastN >= 1 ==> |r| == Min(lastN, |logData|)
      ensures lastN == 0 ==> r == logData
      ensures lastN < 0 ==> |r| == |logData| - Min(-lastN, |logData|)
    {
      Suffix(logData, lastN)
    }

    /** `clear_logs()`: the log is emptied. */
    method ClearLogs()
      modifies this
      ensures logData == []
    {
      logData := [];
    }
  }
}
