/** Basic value types shared by every part of the ingest-server model: the
    byte and fixed-width integer types of the wire, Option/Result, and the
    runtime traps of the Swift original written out as values. */
module Common {

  /** An unsigned byte, Swift's `UInt8`. */
  newtype uint8 = x: int | 0 <= x < 0x100

  /** Swift's `UInt32`, the type the packet length is decoded into. */
  newtype uint32 = x: int | 0 <= x < 0x1_0000_0000

  const INT32_MIN: int := -0x8000_0000
  const INT32_MAX: int := 0x7FFF_FFFF
  const INT64_MIN: int := -0x8000_0000_0000_0000
  const INT64_MAX: int := 0x7FFF_FFFF_FFFF_FFFF

  datatype Option<+T> = None | Some(value: T) {
    function GetOr(default: T): T {
      match this
      case Some(v) => v
      case None => default
    }
  }

  datatype Result<+T, +E> = Success(value: T) | Failure(error: E)

  /** The places where the Swift code stops the process (a range or index
      out of bounds, a force-unwrap of nil). */
  datatype Trap =
    | HeaderOutOfRange      // `buffer[0..<4]` with fewer than four bytes buffered
    | PacketTooShort        // `buffer[4..<length]` / `packet[4]` with length < 5
    | EmptyParameterSet     // `sps[1..<sps.count]` on an empty parameter set
    | NaluTooShort          // `nalu.data[4..<nalu.data.count]` on fewer than four bytes
    | MissingPathComponent  // `popLast()!` on a URL string without a '/'
}
