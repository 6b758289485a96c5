/** Byte strings, as the wire scanner and the framing loop read them. */
module ByteStrings {

  type Byte = b: int | 0 <= b < 256

  type Bytes = seq<Byte>

  function Flat(items: seq<Bytes>): Bytes {
    if items == [] then [] else items[0] + Flat(items[1..])
  }
}
