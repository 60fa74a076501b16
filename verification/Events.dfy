// Telemetry events and the clock they carry.
module Events {
  import opened Basics

  datatype Mitre = Mitre(
    tacticID: string, tacticName: string, techniqueID: string, techniqueName: string, reference: string)

  datatype Event = Event(
    id: string,
    timestamp: Time,
    decoyName: string,
    remoteAddr: string,
    remoteIP: string,
    remotePort: int,
    localPort: int,
    severity: string,
    threatScore: int,
    action: string,
    username: string,
    password: string,
    command: string,
    payloadHashes: seq<string>,
    mitre: Option<Mitre>,
    metadata: map<string, string>)

  /** Nanoseconds since the Unix epoch; Go's zero time.Time is the first instant of year 1. */
  type Time = int

  const ZERO_TIME: Time := -62135596800 * 1_000_000_000
  const SECOND := 1_000_000_000
  const MAX_INT64 := 0x7FFF_FFFF_FFFF_FFFF
  const MIN_INT64 := -0x8000_0000_0000_0000

  /** Time.Sub: the difference as an int64 Duration, saturating at both ends. */
  function Sub(t: Time, u: Time): (d: int)
  {
    if t - u > MAX_INT64 then MAX_INT64 else if t - u < MIN_INT64 then MIN_INT64 else t - u
  }

  /** Time.Unix: whole seconds, rounded towards the past. */
  function Unix(t: Time): int {
    t / SECOND
  }

  /** Two's-complement wrap-around of int64 arithmetic. */
  function WrapInt64(x: int): int {
    (x - MIN_INT64) % 0x1_0000_0000_0000_0000 + MIN_INT64
  }
}
