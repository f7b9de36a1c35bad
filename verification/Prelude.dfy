/** Small value types shared by every part of the model. */
module Prelude {

  datatype Option<+T> = None | Some(value: T)

  datatype Result<+T, +E> = Ok(value: T) | Err(error: E)

  /** Nanoseconds since the epoch. */
  type Time = int

  const SECOND: int := 1_000_000_000

  /** The API server keeps times in RFC 3339 form, which has no fraction of a second. */
  function Truncate(t: Time): (r: Time)
    ensures r <= t < r + SECOND && r % SECOND == 0
  {
    t - t % SECOND
  }

  /** Owner permission bits of a file mode; the process owns every file it handles. */
  type Mode = bv12

  const OWNER_ALL: Mode := 0x1C0        // 0700
  const OWNER_READ_SEARCH: Mode := 0x140 // 0500
  const OWNER_READ: Mode := 0x100       // 0400

  predicate CanRead(m: Mode) { m & 0x100 != 0 }

  predicate CanWrite(m: Mode) { m & 0x080 != 0 }

  predicate CanSearch(m: Mode) { m & 0x040 != 0 }
}
