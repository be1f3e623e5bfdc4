/** What the station code takes from its surroundings besides the disk: the
    clock and the formatting of times and non-integer numbers, which the model
    does not compute and receives as functions. */
module Env {
  import opened JsValue

  datatype Clock = Clock(
    /** `new Date()` in milliseconds since the epoch. */
    nowMs: int,
    /** `moment(v).format(date_format)` for the configured date format. */
    format: Value -> string,
    /** `moment(ms).toISOString()`. */
    iso: int -> string,
    /** `x.toFixed(digits)` for a non-integer number printed as the text. */
    floatToFixed: (string, nat) -> string,
    /** `v / 1000` for a value other than an integer. */
    divideBy1000: Value -> Value)

  /** The current time as the formatters write it. */
  function Now(clock: Clock): string
  {
    clock.format(Int(clock.nowMs))
  }
}
