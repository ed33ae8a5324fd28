/** Shared value types. */
module Common {

  datatype Option<+T> = None | Some(value: T)

  type byte = b: int | 0 <= b < 256

  const U32_MAX: nat := 0xffff_ffff
  const U64_MAX: nat := 0xffff_ffff_ffff_ffff

  const BEL: byte := 0x07
  const LF: byte := 0x0a
  const CR: byte := 0x0d
  const ESC: byte := 0x1b
  const BACKSLASH: byte := 0x5c
  const RIGHT_BRACKET: byte := 0x5d

  /** The concatenation of a sequence of sequences. */
  function Flatten<T>(parts: seq<seq<T>>): seq<T> {
    if parts == [] then [] else Flatten(parts[..|parts| - 1]) + parts[|parts| - 1]
  }

  lemma Associate<T>(x: seq<T>, y: seq<T>, z: seq<T>)
    ensures x + y + z == x + (y + z)
  {}

  lemma JoinSlices<T>(x: seq<T>, data: seq<T>, i: nat, j: nat)
    requires i <= j <= |data|
    ensures x + data[..i] + data[i..j] == x + data[..j]
  {}
}
