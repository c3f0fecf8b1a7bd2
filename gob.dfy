/**
 * The serializer. The gob wire format is not part of this model: a Codec
 * names what each encoder and decoder call produces, and the adapter is
 * proved correct for every Codec.
 */
module Gob {
  import opened Bytes
  import opened Results

  /** A Go value passed through an `interface{}` parameter. */
  datatype Value =
    | Nil                          // the nil interface value
    | Str(s: Bytes)                // a string
    | Strings(items: seq<Bytes>)   // a []string
    | Other(id: int, text: Bytes)  // any other value; `id` tells values apart, `text` is what %s prints for it

  /**
   * What one `Encode` call leaves in the buffer: the whole message, or, when
   * encoding fails, whatever the encoder had already written before it gave up.
   */
  datatype Encoded = Encoded(bytes: Bytes) | EncodeFailed(written: Bytes)

  datatype Codec = Codec(
    /** `Encode(v)` on a fresh encoder writing into an empty buffer. */
    first: Value -> Encoded,
    /**
     * `Encode(v)` as the second call on an encoder whose first call encoded `u`
     * and whose buffer was drained since; it may leave out type information
     * the first message already carried, hence the dependence on `u`.
     */
    second: (Value, Value) -> Encoded,
    /** A fresh decoder reading the non-empty bytes `b` into a destination holding `dst`. */
    decodeNonEmpty: (Value, Bytes) -> Option<Value>)

  /**
   * `Decode` of a fresh decoder over the bytes `b` into a destination holding
   * `dst`: the new contents of the destination, or the decoder's error. A
   * decoder that finds no bytes reports end of input.
   */
  function Decode(c: Codec, dst: Value, b: Bytes): (r: Result<Value>)
    ensures b == [] <==> r == Failure(EndOfInput)
    ensures r.Success? <==> b != [] && c.decodeNonEmpty(dst, b).Some?
    ensures r.Success? ==> c.decodeNonEmpty(dst, b) == Some(r.value)
  {
    if b == [] then Failure(EndOfInput)
    else match c.decodeNonEmpty(dst, b)
      case None => Failure(DecodeFailed)
      case Some(v) => Success(v)
  }
}
