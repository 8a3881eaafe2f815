/** The stock result types the other modules share. */
module Wrappers {
  datatype Option<+T> = None | Some(value: T)

  /** Seconds on the clock the source reads (`time.time`, `time.monotonic` or `datetime.now`). */
  type Time = real

  function Max(a: Time, b: Time): (r: Time)
    ensures r >= a && r >= b && (r == a || r == b)
  {
    if a < b then b else a
  }
}
