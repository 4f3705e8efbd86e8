/** The C integer types as ranges: assigning to one is a proof that nothing wrapped. */
module Words {
  const U32: nat := 0x1_0000_0000
  const U64: nat := 0x1_0000_0000_0000_0000

  type byte = x: int | 0 <= x < 256
  type u32 = x: int | 0 <= x < U32
  type u64 = x: int | 0 <= x < U64
  type int32 = x: int | -0x8000_0000 <= x < 0x8000_0000
  type int64 = x: int | -0x8000_0000_0000_0000 <= x < 0x8000_0000_0000_0000

  // TqStatus values that the modelled operations return.
  const OK: int32 := 0
  const ERR_MAGIC: int32 := -1
  const ERR_VERSION: int32 := -2
  const ERR_TRUNCATED: int32 := -3
  const ERR_UNSUPPORTED: int32 := -4
  const ERR_MISSING: int32 := -5
  const ERR_SHAPE: int32 := -6
  const ERR_NOMEM: int32 := -7
  const ERR_IO: int32 := -8
  const ERR_RANGE: int32 := -9

  /** A value or none. */
  datatype Option<T> = None | Some(value: T)
}
