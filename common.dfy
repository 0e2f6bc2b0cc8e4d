/** Types shared by the kernel model: machine words, optional and fallible
    results, and the abstract view of one x86 paging-structure entry. */
module Common {

  const U32_LIMIT: int := 0x1_0000_0000

  /** A 32-bit machine word (`u32`, and `usize` on this i386 target). */
  type U32 = x: int | 0 <= x < U32_LIMIT

  /** One byte of memory or of an on-disk record. */
  type Byte = x: int | 0 <= x < 256

  /** Bytes per page frame, and entries per page table or page directory. */
  const PAGE_SIZE: nat := 0x1000
  const TABLE_ENTRIES: nat := 1024

  datatype Option<+T> = None | Some(value: T)

  /** The kernel's `Result<T, ()>`: success carries a value, failure nothing. */
  datatype Result<+T> = Ok(value: T) | Err

  /** The two attributes of a paging-structure entry the kernel reads and
      writes here: the frame it points to and its present bit. A zeroed entry
      points nowhere and is not present. */
  datatype PageEntry = PageEntry(address: nat, present: bool)

  const ZERO_ENTRY: PageEntry := PageEntry(0, false)

  /** `set_address(a)` followed by `set_present()` on a zeroed entry. */
  function MappedEntry(address: nat): (e: PageEntry)
    ensures e.present && e.address == address && e != ZERO_ENTRY
  {
    PageEntry(address, true)
  }
}
