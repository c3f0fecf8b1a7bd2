/** Go strings and byte slices, both as sequences of bytes. */
module Bytes {

  newtype byte = b: int | 0 <= b < 256

  /** A Go `string` or `[]byte`; the conversion `[]byte(s)` is the identity here. */
  type Bytes = seq<byte>

  predicate IsAscii(s: string) {
    forall i :: 0 <= i < |s| ==> s[i] < 128 as char
  }

  /** The bytes of an ASCII literal, one byte per character. */
  function Ascii(s: string): (r: Bytes)
    requires IsAscii(s)
    ensures |r| == |s|
    ensures forall i :: 0 <= i < |s| ==> r[i] as int == s[i] as int
  {
    if s == [] then [] else [s[0] as int as byte] + Ascii(s[1..])
  }
}
