/** The challenge rate limiter: one window for the connection, with a budget for each claimed device. */
module ChallengeRateLimiter {
  import opened Wrappers
  import opened SlidingWindow
  import opened KeyedWindow

  class Limiter {
    const windowMs: nat
    const perDeviceLimit: nat
    const connectionLimit: nat
    var windowStartedAt: int
    var total: nat
    var devices: map<string, nat>
    ghost var history: seq<Grant<string>>   // every accepted request
    ghost var clock: int                    // the last reading of the clock
    ghost var steady: bool                  // the clock never stepped back

    ghost predicate Valid()
      reads this
    {
      && 1 <= windowMs && 1 <= perDeviceLimit <= connectionLimit
      && total <= connectionLimit
      && SumOf(devices) == total
      && (steady ==> Ledger(history, windowMs, clock, windowStartedAt, total, devices, connectionLimit, perDeviceLimit))
    }

    constructor (now: int, windowMs: nat, perDeviceLimit: nat, connectionLimit: nat)
      requires 1 <= windowMs && 1 <= perDeviceLimit <= connectionLimit
      ensures Valid() && steady && history == [] && clock == now
      ensures this.windowMs == windowMs && this.perDeviceLimit == perDeviceLimit
        && this.connectionLimit == connectionLimit
      ensures windowStartedAt == now && total == 0 && devices == map[]
    {
      this.windowMs, this.perDeviceLimit, this.connectionLimit := windowMs, perDeviceLimit, connectionLimit;
      windowStartedAt, total, devices := now, 0, map[];
      history, clock, steady := [], now, true;
    }

    /** Starts a new window when the old one is over, or when the clock stepped back. */
    method Roll(current: int)
      requires Valid()
      modifies this
      ensures Valid() && history == old(history)
      ensures steady == old(steady && clock <= current) && clock == current
      ensures if old(windowStartedAt) <= current < old(windowStartedAt) + windowMs
              then windowStartedAt == old(windowStartedAt) && total == old(total) && devices == old(devices)
              else windowStartedAt == current && total == 0 && devices == map[]
    {
      steady := steady && clock <= current;
      if current - windowStartedAt >= windowMs || current < windowStartedAt {
        if steady {
          NewWindow(history, windowMs, clock, windowStartedAt, total, devices, connectionLimit, perDeviceLimit,
            current);
        }
        windowStartedAt := current;
        total := 0;
        devices := map[];
      }
      clock := current;
    }

    method Consume(deviceId: string, current: int) returns (granted: bool)
      requires Valid()
      modifies this
      ensures Valid()
      ensures steady == old(steady && clock <= current) && clock == current
      ensures var going := old(windowStartedAt) <= current < old(windowStartedAt) + windowMs;
        var used, kept := if going then old(total) else 0, if going then old(devices) else map[];
        && windowStartedAt == (if going then old(windowStartedAt) else current)
        && granted == (used < connectionLimit && CountOf(kept, deviceId) < perDeviceLimit)
        && total == used + (if granted then 1 else 0)
        && devices == if granted then kept[deviceId := CountOf(kept, deviceId) + 1] else kept
      ensures history == old(history) + if granted then [Grant(current, windowStartedAt, deviceId)] else []
    {
      Roll(current);
      if total >= connectionLimit {
        return false;
      }
      var deviceCount := CountOf(devices, deviceId);
      if deviceCount >= perDeviceLimit {
        return false;
      }
      if steady {
        OneMoreGrant(history, windowMs, clock, windowStartedAt, total, devices, connectionLimit, perDeviceLimit,
          current, deviceId);
      }
      SumBumped(devices, deviceId);
      history := history + [Grant(current, windowStartedAt, deviceId)];
      total := total + 1;
      devices := devices[deviceId := deviceCount + 1];
      return true;
    }

    /** With a clock that never steps back, no window-long interval sees more than twice the limits. */
    lemma {:induction false} SlidingBound(deviceId: string, from: int)
      requires Valid() && steady
      ensures Between(history, None, from, windowMs) <= 2 * connectionLimit
      ensures Between(history, Some(deviceId), from, windowMs) <= 2 * perDeviceLimit
    {
      AtMostTwice(history, None, windowMs, connectionLimit, from);
      AtMostTwice(history, Some(deviceId), windowMs, perDeviceLimit, from);
    }
  }
}
