/**
 * The values the WattTime grid-emissions plugin works on: the errors it
 * raises, the time window of one input, and one sample of the upstream
 * time series. Timestamps are whole seconds since 1970-01-01T00:00:00Z.
 */
module Records {

  import opened Wrappers

  /**
   * Every failure of the plugin's core. All but `Upstream` are raised as an
   * `InputValidationError` in the source; they differ by their message.
   */
  datatype Error =
    | InvalidGeolocation          // the `geolocation` schema check failed (or there is no input to check)
    | NotANumber(index: nat)      // latitude or longitude of input[index] parsed to NaN
    | SpanTooLong(seconds: int)   // the merged window is longer than 32 days
    | NoData(index: nat)          // no sample fell into the window of input[index]
    | Upstream(message: string)   // failure reported by the WattTime API client

  /**
   * One input record: the three fields the plugin reads and the
   * `grid/carbon-intensity` field it writes (`None` until written).
   */
  datatype Input = Input(timestamp: int, duration: int, geolocation: Option<string>, carbonIntensity: Option<real>)

  /** The exclusive end of an input's window: `timestamp + duration` seconds. */
  function End(u: Input): int
  {
    u.timestamp + u.duration
  }

  /** One reading of the upstream API: `point_time` and `value` (lbs/MWh). */
  datatype Sample = Sample(pointTime: int, value: real)
}
