/** Byte strings. Go's `string` is an immutable sequence of bytes and `len`
    counts bytes, so every text value of the model is a sequence of bytes. */
module ByteStrings {

  newtype byte = b: int | 0 <= b < 256

  type Bytes = seq<byte>

  /** The bytes of a Go string literal. Every literal of the program is ASCII,
      whose UTF-8 encoding is one byte per character. */
  function Ascii(s: string): (r: Bytes)
    requires forall i | 0 <= i < |s| :: s[i] as int < 128
    ensures |r| == |s|
    ensures forall i :: 0 <= i < |s| ==> r[i] as int == s[i] as int
  {
    seq(|s|, i requires 0 <= i < |s| => s[i] as int as byte)
  }

  datatype Option<T> = None | Some(value: T)
}
