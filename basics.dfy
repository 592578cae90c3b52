/** Small value types shared by both tools: the C integer widths they use and an optional value. */
module Basics {

  /** An unsigned 8-bit value (a C `unsigned char` or `uint8_t`). */
  type byte = x: int | 0 <= x < 0x100

  /** An unsigned 16-bit value (a C `uint16_t`, as USB vendor and product identifiers are). */
  type u16 = x: int | 0 <= x < 0x1_0000

  /** A negative libusb status code. */
  type ErrorCode = x: int | x < 0 witness -1

  datatype Option<T> = None | Some(value: T)

  function Min(a: int, b: int): int {
    if a <= b then a else b
  }
}
