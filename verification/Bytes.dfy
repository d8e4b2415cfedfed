/** Byte strings and the few value types every other module shares. */
module Bytes {

  type byte = bv8
  type Bytes = seq<byte>

  /** The contents of a C string: the bytes before its terminator. */
  type CString = s: Bytes | 0 !in s witness []

  datatype Option<+T> = None | Some(value: T)

  const U64_LIMIT: nat := 0x1_0000_0000_0000_0000

  /** `n` zero bytes, as memset writes them. */
  function Zeros(n: nat): (z: Bytes)
    ensures |z| == n
  {
    seq(n, _ => 0)
  }

  /** The pieces of `parts`, one after the other. */
  function Concat(parts: seq<Bytes>): Bytes {
    if parts == [] then [] else Concat(parts[..|parts| - 1]) + parts[|parts| - 1]
  }

  /** Reading a C string at its end yields the terminator. */
  function At(s: Bytes, i: nat): byte {
    if i < |s| then s[i] else 0
  }
}
