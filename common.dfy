/** Machine types and the framework's status codes shared by the driver and the application. */
module Common {

  /** `uint8_t` */
  type Byte = b: int | 0 <= b < 0x100

  /** `uint16_t` */
  type Uint16 = x: int | 0 <= x < 0x1_0000

  // Status codes of the framework (err_codes.h is not part of this model;
  // the header's documented "-1 Passed parameters were invalid" fixes ERR_INVALID_DATA).
  const ERR_NONE: int := 0
  const ERR_INVALID_DATA: int := -1
  const ERR_BUSY: int := -4
  const ERR_NOT_FOUND: int := -10
  const ERR_INVALID_ARG: int := -13

  datatype Option<T> = None | Some(value: T)

  function Min(a: int, b: int): (m: int)
    ensures m <= a && m <= b && (m == a || m == b)
  {
    if a <= b then a else b
  }
}
