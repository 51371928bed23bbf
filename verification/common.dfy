/** Vocabulary shared by every component of the model. */
module Common {

  datatype Option<+T> = None | Some(value: T)

  // Record ids and client ids are opaque text; instants and durations are integer nanoseconds.
  type Account = string
  type Conversation = string
  type MessageId = string
  type ClientId = string
  type Instant = int

  const SECOND: int := 1_000_000_000
  const MINUTE: int := 60 * SECOND
  const HOUR: int := 60 * MINUTE

  function Max(a: int, b: int): int {
    if a < b then b else a
  }

  /** Seconds until an instant, rounded up and at least one: the value sent as Retry-After. */
  function RetrySeconds(wait: int): (s: int)
    ensures s >= 1
    ensures wait > 0 ==> (s - 1) * SECOND < wait <= s * SECOND
  {
    var up := (wait + SECOND - 1) / SECOND;
    Max(up, 1)
  }
}
