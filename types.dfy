/** Machine integers, byte strings, and the optional / error-or-value wrappers shared by the model. */
module Types {

  const TWO_32: int := 0x1_0000_0000
  const TWO_64: int := 0x1_0000_0000_0000_0000

  type byte = x: int | 0 <= x < 0x100
  type uint32 = x: int | 0 <= x < 0x1_0000_0000
  type uint64 = x: int | 0 <= x < 0x1_0000_0000_0000_0000
  type int64 = x: int | -0x8000_0000_0000_0000 <= x < 0x8000_0000_0000_0000

  /** A Go `[]byte`; a nil slice and an empty slice are both the empty sequence. */
  type Bytes = seq<byte>

  /** A Go value that may be nil. */
  datatype Option<+T> = None | Some(value: T)

  /** A Go `(T, error)` pair where exactly one side is meaningful. */
  datatype Result<+T> = Ok(value: T) | Err(error: Error)

  /** The errors the client produces itself, and those it passes on from its collaborators. */
  datatype Error =
    | NoClient                            // "don't have available client of ontology"
    | External(cause: string)             // returned by a transport, a decoder, IntoImmutable or the proof library
    | PreExecUnmarshal(raw: Bytes, inner: Error)  // "json.Unmarshal PreExecResult:%s error:%s"
    | BaselineHeight(inner: Error)        // "GetCurrentBlockHeight error:%s"
    | Timeout(secs: int)                  // "timeout after %d (s)"
}
