/** Shared vocabulary: optional values, results carrying the source's exceptions, bytes. */
module Common {
  datatype Option<+T> = None | Some(value: T)

  datatype Result<+T, +E> = Ok(value: T) | Err(error: E)

  /** One byte of a file, as an integer; Python's `bytes` items have this range. */
  type Byte = b: int | 0 <= b < 256

  type Bytes = seq<Byte>

  /** Python's slice `s[lo..hi]`: bounds past the end are clamped. */
  function Slice<T>(s: seq<T>, lo: nat, hi: nat): seq<T> {
    if lo >= |s| || hi <= lo then [] else if hi <= |s| then s[lo..hi] else s[lo..]
  }

  /** `int.from_bytes(bytes, "little")`. */
  function Little(bytes: Bytes): nat {
    if bytes == [] then 0 else bytes[0] + 256 * Little(bytes[1..])
  }
}
