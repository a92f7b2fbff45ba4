/** Machine-level value types shared by the document model, the serialiser and the exporter. */
module Primitives {

  /** Number of distinct values of Rust's `u32`. */
  const U32_MODULUS: int := 0x1_0000_0000

  /** Rust's `u32`: indices, counts, offsets and the exported address and size cells. */
  newtype u32 = x: int | 0 <= x < 0x1_0000_0000

  /** Rust's `u8`: one byte of serialised output. */
  newtype u8 = x: int | 0 <= x < 0x100

  /** Rust's `f64`. The document code only ever compares these values with `==` against
      literals (0.0, 0.5, 1.0), so they are modelled by their exact value. */
  type F64 = real

  /** Rust's `Option<T>`. */
  datatype Option<+T> = None | Some(value: T)
}
