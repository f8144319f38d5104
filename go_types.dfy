/** The fixed-width Go types the web API works with. */
module GoTypes {

  /** Go's `int` on the 64-bit targets the service is built for. */
  newtype int64 = x: int | -0x8000_0000_0000_0000 <= x < 0x8000_0000_0000_0000

  /** One byte of a Go string. */
  newtype byte = b: int | 0 <= b < 0x100

  /** A Go string is an immutable sequence of bytes: `len` counts bytes, not characters. */
  type GoString = seq<byte>
}
