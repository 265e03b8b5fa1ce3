/** Byte strings, shared by everything that reads or writes bytes. */
module ByteStrings {
  type Byte = b: int | 0 <= b < 0x100
  type Bytes = seq<Byte>

  /** The pieces one after another. */
  function Flatten(pieces: seq<Bytes>): Bytes {
    if pieces == [] then [] else Flatten(pieces[..|pieces| - 1]) + pieces[|pieces| - 1]
  }
}
