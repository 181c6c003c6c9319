/** Machine integers, floats and the Option/Result wrappers shared by the model. */
module Common {

  /** Rust `u8`, `u32` and `i32`, as bounded integers. */
  type u8 = x: int | 0 <= x < 0x100
  type u32 = x: int | 0 <= x < 0x1_0000_0000
  type i32 = x: int | -0x8000_0000 <= x < 0x8000_0000

  /** One past the largest `u32`. */
  const U32_LIMIT: int := 0x1_0000_0000
  /** `std::u32::MAX`. */
  const U32_MAX: u32 := 0xFFFF_FFFF

  /** Rust `f32`, kept as its 32-bit pattern: the model never computes with it. */
  datatype F32 = F32(bits: bv32)

  datatype Option<+T> = None | Some(value: T)

  datatype Result<+T, +E> = Ok(value: T) | Err(error: E)

  /** `HashMap::get`: the value stored under `k`, or `None` when `k` is absent. */
  function Get<K, V>(m: map<K, V>, k: K): (r: Option<V>)
    ensures r.None? <==> k !in m
    ensures r.Some? ==> r.value == m[k]
  {
    if k in m then Some(m[k]) else None
  }
}
