/** Go's byte strings and the small value types shared by the whole model. */
module GoStrings {

  /** A Go `byte`. */
  type byte = x: int | 0 <= x < 256

  /** A Go `string`: an immutable sequence of bytes. `[]byte(s)` and `string(b)` are the identity on it. */
  type GoString = seq<byte>

  datatype Option<+T> = None | Some(value: T)

  /** The bytes of an ASCII string literal, for writing constants such as authority labels. */
  function Ascii(s: string): GoString
    requires forall i :: 0 <= i < |s| ==> s[i] as int < 128
  {
    seq(|s|, i requires 0 <= i < |s| => s[i] as int)
  }
}
