/** The keep-alive tracker of the telemetry session: the console stops streaming unless
    it is sent a heartbeat at least once per interval.

    `Instant::now()` becomes an explicit clock reading `now`, in any fixed unit; time
    since an instant saturates at zero, as `Instant::elapsed` does for an instant later
    than the clock. */
module Heartbeat {

  /** `Instant::elapsed`: time since `since` at clock reading `now`, zero if `since` is later. */
  function Elapsed(since: nat, now: nat): (e: nat)
    ensures now >= since ==> e + since == now
    ensures now < since ==> e == 0
  {
    if now >= since then now - since else 0
  }

  class HeartbeatManager {
    var lastHeartbeatTime: nat
    var heartbeatInterval: nat

    /** `new`: the last heartbeat counts as sent at creation. */
    constructor(interval: nat, now: nat)
      ensures lastHeartbeatTime == now && heartbeatInterval == interval
    {
      lastHeartbeatTime := now;
      heartbeatInterval := interval;
    }

    /** `is_heartbeat_needed`. */
    predicate IsHeartbeatNeeded(now: nat)
      reads this
    {
      TimeSinceLastHeartbeat(now) >= heartbeatInterval
    }

    /** `record_heartbeat_sent`: only the time of the last heartbeat moves. */
    method RecordHeartbeatSent(now: nat)
      modifies this
      ensures lastHeartbeatTime == now && heartbeatInterval == old(heartbeatInterval)
      ensures heartbeatInterval > 0 ==> !IsHeartbeatNeeded(now)
    {
      lastHeartbeatTime := now;
    }

    /** `time_since_last_heartbeat`. */
    function TimeSinceLastHeartbeat(now: nat): nat
      reads this
    {
      Elapsed(lastHeartbeatTime, now)
    }

    /** `heartbeat_interval`. */
    function HeartbeatInterval(): nat
      reads this
    {
      heartbeatInterval
    }

    /** `update_interval`: only the interval changes. */
    method UpdateInterval(newInterval: nat)
      modifies this
      ensures heartbeatInterval == newInterval && lastHeartbeatTime == old(lastHeartbeatTime)
    {
      heartbeatInterval := newInterval;
    }

    /** `time_until_next_heartbeat`: what is left of the interval, zero once it has run
        out; never more than the interval, and zero exactly when a heartbeat is needed. */
    function TimeUntilNextHeartbeat(now: nat): (r: nat)
      reads this
      ensures r <= heartbeatInterval
      ensures r == 0 <==> IsHeartbeatNeeded(now)
      ensures r > 0 ==> r + TimeSinceLastHeartbeat(now) == heartbeatInterval
    {
      var elapsed := TimeSinceLastHeartbeat(now);
      if elapsed >= heartbeatInterval then 0 else heartbeatInterval - elapsed
    }
  }

  /** Right after creation with a positive interval no heartbeat is needed and the whole
      interval is left; with a zero interval one is always needed. */
  lemma FreshManager(h: HeartbeatManager, interval: nat, created: nat, now: nat)
    requires h.lastHeartbeatTime == created && h.heartbeatInterval == interval
    ensures interval > 0 ==> !h.IsHeartbeatNeeded(created) && h.TimeUntilNextHeartbeat(created) == interval
    ensures interval == 0 ==> h.IsHeartbeatNeeded(now) && h.TimeUntilNextHeartbeat(now) == 0
  {
  }

  /** A heartbeat is needed exactly once the interval has passed since the last one, and
      stays needed as the clock advances. */
  lemma NeededOnceIntervalPassed(h: HeartbeatManager, now: nat, later: nat)
    requires now >= h.lastHeartbeatTime && later >= now
    ensures h.IsHeartbeatNeeded(now) <==> now >= h.lastHeartbeatTime + h.heartbeatInterval
    ensures h.IsHeartbeatNeeded(now) ==> h.IsHeartbeatNeeded(later)
    ensures h.TimeUntilNextHeartbeat(later) <= h.TimeUntilNextHeartbeat(now)
  {
  }

  /** The tests' timeline: create at `t0`, record at `t1`; a heartbeat is needed at `t2`
      exactly when a whole interval separates it from `t1`, however long ago `t0` was. */
  method RecordThenWait(interval: nat, t0: nat, t1: nat, t2: nat) returns (neededAtRecord: bool, neededLater: bool)
    requires t0 <= t1 <= t2
    ensures neededAtRecord <==> interval == 0
    ensures neededLater <==> t2 - t1 >= interval
  {
    var h := new HeartbeatManager(interval, t0);
    h.RecordHeartbeatSent(t1);
    neededAtRecord := h.IsHeartbeatNeeded(t1);
    neededLater := h.IsHeartbeatNeeded(t2);
  }
}
