/** Slack timestamps as numbers of microseconds. */
module SlackTime {

  type Ts = nat

  /** Rounding to the nearest millisecond, halves upwards. */
  function SlackTsToMs(ts: Ts): nat {
    (ts + 500) / 1000
  }

  function MsToSlackTs(ms: nat): Ts {
    ms * 1000
  }
}
