/** Values shared by every part of the codec: bytes, Go's nil-or-slice byte
    buffers, optional values and the errors the codec returns. */
module Base {

  newtype byte = x: int | 0 <= x < 256

  datatype Option<+T> = None | Some(value: T)

  /** A Go `[]byte`: a nil slice is distinguished from an empty one, because
      `Unmarshal` tests `d == nil` while `Write` tests `len(buf) == 0`. */
  datatype Bytes = Null | Buf(contents: seq<byte>) {
    function Seq(): seq<byte> {
      if Null? then [] else contents
    }
  }

  /** The errors the codec can return or pass on. `External` stands for an
      error produced by one of the foreign encoders, carrying its text. */
  datatype Error =
    | EOF                                       // io.EOF
    | UnexpectedEOF                             // io.ErrUnexpectedEOF
    | SizeLimit(length: nat, limit: nat)        // larger than DefaultMaxMsgSize
    | UnknownRequestPath                        // ":path" with a wrong number of parts
    | UnknownContentType                        // codec.ErrUnknownContentType
    | InvalidMessage                            // codec.ErrInvalidMessage
    | External(text: string)

  function Min(a: nat, b: nat): (m: nat)
    ensures m <= a && m <= b && (m == a || m == b)
  {
    if a <= b then a else b
  }

  function Zeros(n: nat): (z: seq<byte>)
    ensures |z| == n && forall i :: 0 <= i < n ==> z[i] == 0
  {
    seq(n, _ => 0)
  }
}
