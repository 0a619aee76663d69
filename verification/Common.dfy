/** Option and Result types shared by every module of the model. */
module Common {

  datatype Option<+T> = None | Some(value: T)

  /** The source's `(value, error)` return pairs: exactly one side is meaningful. */
  datatype Result<+T, +E> = Ok(value: T) | Err(error: E)

  /** Go's fixed-width unsigned integers. Nothing in the model adds to them without a bound. */
  const TWO_64: nat := 0x1_0000_0000_0000_0000

  type uint64 = n: nat | n < TWO_64
  type uint16 = n: nat | n < 0x1_0000
  type int64 = n: int | -0x8000_0000_0000_0000 <= n < 0x8000_0000_0000_0000
}
