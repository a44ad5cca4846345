/** Bytes and the little arithmetic on them that the wire protocols share. */
module Bytes {

  type byte = x: int | 0 <= x < 256

  datatype Option<+T> = None | Some(value: T)

  /** `!b` on a byte. */
  function Complement(b: byte): byte {
    255 - b
  }

  function Low(n: nat): byte {
    n % 256
  }

  function High(n: nat): byte {
    n / 256 % 256
  }

  /** Wrapping byte sum. */
  function Sum8(bs: seq<byte>): byte {
    if bs == [] then 0 else (Sum8(bs[..|bs| - 1]) + bs[|bs| - 1]) % 256
  }

  function Flatten<T>(parts: seq<seq<T>>): seq<T> {
    if parts == [] then [] else parts[0] + Flatten(parts[1..])
  }
}
