/** Times of day (java.time.LocalTime) and protobuf Durations. */
module Times {
  import opened Wrappers

  const NanosPerSecond: int := 1_000_000_000
  const SecondsPerDay: int := 86400

  /** A LocalTime, as nanoseconds since midnight. */
  type Time = t: int | 0 <= t < SecondsPerDay * NanosPerSecond

  /** The time of day 00:00:00. */
  const Midnight: Time := 0

  /** A protobuf Duration: whole seconds and a nanosecond adjustment. */
  datatype Duration = Duration(seconds: int, nanos: int)

  /** LocalTime.toSecondOfDay(). */
  function SecondOfDay(t: Time): (s: int)
    ensures 0 <= s < SecondsPerDay
  {
    t / NanosPerSecond
  }

  /** LocalTime.getNano(). */
  function NanoOf(t: Time): (n: int)
    ensures 0 <= n < NanosPerSecond
  {
    t % NanosPerSecond
  }

  /**
   * LocalTime.ofSecondOfDay(d.getSeconds()).withNano(d.getNanos()): None where either factory
   * throws a DateTimeException, because the seconds lie outside one day or the nanos outside
   * one second.
   */
  function OfDuration(d: Duration): (r: Option<Time>)
    ensures r.Some? <==> 0 <= d.seconds < SecondsPerDay && 0 <= d.nanos < NanosPerSecond
    ensures r.Some? ==> SecondOfDay(r.value) == d.seconds && NanoOf(r.value) == d.nanos
  {
    if 0 <= d.seconds < SecondsPerDay && 0 <= d.nanos < NanosPerSecond then
      Some(d.seconds * NanosPerSecond + d.nanos)
    else
      None
  }

  /** The Duration that names a time of day: the inverse of OfDuration. */
  function ToDuration(t: Time): Duration
  {
    Duration(SecondOfDay(t), NanoOf(t))
  }

  /** Every time of day is reached from exactly one valid Duration. */
  lemma OfDurationRoundTrip(t: Time, d: Duration)
    ensures OfDuration(ToDuration(t)) == Some(t)
    ensures OfDuration(d) == Some(t) ==> d == ToDuration(t)
  {
  }
}
