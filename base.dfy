/** Shared value types: optional values and the machine integer widths the code uses. */
module Base {

  datatype Option<+T> = None | Some(value: T)

  /** One byte of kernel virtual memory. */
  type byte = x: int | 0 <= x < 0x100

  /** A ULONG / DWORD. */
  type u32 = x: int | 0 <= x < 0x1_0000_0000

  /** A ULONG_PTR: kernel virtual addresses, offsets and process identifiers. */
  type u64 = x: int | 0 <= x < 0x1_0000_0000_0000_0000

  type Addr = u64

  /** Appending is associative; used to regroup a trace of calls. */
  lemma AppendAssoc<T>(a: seq<T>, b: seq<T>, c: seq<T>)
    ensures a + b + c == a + (b + c)
  {
  }
}
