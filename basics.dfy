/** Values from Go's standard library and from github.com/google/uuid that the
    authentication core passes around: failure wrappers, foreign error values,
    UUIDs, instants, durations and the values a JWT claim map can hold. */
module Basics {

  datatype Option<+T> = None | Some(value: T)

  datatype Result<+T, +E> = Success(value: T) | Failure(error: E)

  /** The result of a Go call that returns only an `error`. */
  datatype Outcome<+E> = Pass | Fail(error: E)

  /** The collaborator that produced a foreign error value. */
  datatype Origin = Database | PasswordHasher | TokenSigner | UuidParser

  /** An error value produced outside the core (the SQL driver, bcrypt, the JWT
      library, uuid.Parse). The core never inspects one; it only hands it on. */
  datatype Fault = Fault(origin: Origin, detail: string)

  /** uuid.UUID: 128 bits compared by value. */
  datatype Uuid = Uuid(bits: bv128)

  const NanosPerSecond: int := 1_000_000_000

  /** time.Duration: a count of nanoseconds. */
  type Duration = int

  const Hour: Duration := 3600 * NanosPerSecond

  /** time.Time, as nanoseconds since the Unix epoch. */
  datatype Time = Time(nanos: int)

  /** Time.Unix: whole seconds since the epoch, rounded towards the past. */
  function Unix(t: Time): (secs: int)
    ensures secs * NanosPerSecond <= t.nanos < (secs + 1) * NanosPerSecond
  {
    t.nanos / NanosPerSecond
  }

  /** Time.Add. */
  function Add(t: Time, d: Duration): (u: Time)
    ensures u.nanos - t.nanos == d
  {
    Time(t.nanos + d)
  }

  /** A value of a JWT claim map (Go's `any` as the core fills it: strings and
      Unix-second integers). */
  datatype Claim = Text(text: string) | Number(number: int)
}
