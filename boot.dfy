/** Early-boot arithmetic of `lib.rs`: clearing the BSS section, the
    higher-half address of the init filesystem, the move of the stack
    pointer into the higher half, the kernel heap's range and the placement
    of the physical frame allocator. The linker-script symbols are
    parameters, gathered in `LinkerSymbols`. */
module Boot {
  import opened Common

  /** Start of the kernel's half of the address space (directory slot 0x300). */
  const KERNEL_BASE: nat := 0xC000_0000
  /** Where the boot stack is moved to, relative to its start. */
  const HIGH_STACK_BASE: nat := 0xFFBF_E000
  const HEAP_START: nat := 0xC040_0000
  /** First address of the directory's self-mapping slot 1023. */
  const SELF_MAP_BASE: nat := 0xFFC0_0000

  /** The symbols the linker script defines, as physical addresses. */
  datatype LinkerSymbols = LinkerSymbols(
    roPhysicalStart: U32, roPhysicalEnd: U32,
    rwPhysicalStart: U32, rwPhysicalEnd: U32,
    bssStart: U32, bssEnd: U32,
    stackStart: U32)
  {
    /** The layout the kernel relies on: read-only data, then read-write
        data holding the BSS and, after it, the one-page boot stack, each
        boundary in order; the stack is page-aligned. */
    predicate WellFormed() {
      && roPhysicalStart <= roPhysicalEnd <= rwPhysicalStart <= rwPhysicalEnd
      && rwPhysicalStart <= bssStart <= bssEnd <= stackStart
      && stackStart + PAGE_SIZE <= rwPhysicalEnd
      && stackStart % PAGE_SIZE == 0
    }
  }

  /** The addresses `start, start + 1, .., end - 1` in ascending order, and
      nothing when `start >= end`. */
  function AscendingRange(start: nat, end: nat): (r: seq<nat>)
    ensures |r| == if start < end then end - start else 0
    ensures forall k :: 0 <= k < |r| ==> r[k] == start + k
    decreases end - start
  {
    if start < end then [start] + AscendingRange(start + 1, end) else []
  }

  /** `zero_bss` on the byte memory `memory` (indexed by physical address).
      Every byte of `[start, end)` becomes 0 and no other byte is written;
      `written` records the addresses stored to, in order. */
  method ZeroBss(memory: array<Byte>, start: nat, end: nat) returns (ghost written: seq<nat>)
    requires start >= end || end <= memory.Length
    modifies memory
    ensures forall a :: 0 <= a < memory.Length && start <= a < end ==> memory[a] == 0
    ensures forall a :: 0 <= a < memory.Length && !(start <= a < end) ==> memory[a] == old(memory[a])
    ensures written == AscendingRange(start, end)
  {
    var bssIter := start;
    written := [];
    while bssIter < end
      invariant bssIter == start || start <= bssIter <= end
      invariant written == AscendingRange(start, end)[..bssIter - start]
      invariant forall a :: 0 <= a < memory.Length && start <= a < bssIter ==> memory[a] == 0
      invariant forall a :: 0 <= a < memory.Length && !(start <= a < bssIter) ==> memory[a] == old(memory[a])
      decreases end - bssIter
    {
      memory[bssIter] := 0;
      written := written + [bssIter];
      bssIter := bssIter + 1;
    }
  }

  /** On a well-formed layout every store of `zero_bss` (run from
      `__bss_start` to `__bss_end`) lands in the read-write data below the
      boot stack: together with `ZeroBss`'s frame clause, clearing the BSS
      never touches the stack it runs on. */
  lemma ZeroBssSparesStack(symbols: LinkerSymbols)
    requires symbols.WellFormed()
    ensures forall a :: a in AscendingRange(symbols.bssStart, symbols.bssEnd) ==>
      symbols.rwPhysicalStart <= a < symbols.stackStart
    ensures forall a :: symbols.stackStart <= a < symbols.stackStart + PAGE_SIZE ==>
      a !in AscendingRange(symbols.bssStart, symbols.bssEnd)
  {
  }

  /** `_start`: the bootloader's `initfs_start`, ORed with 0xc0000000. */
  function InitfsAddress(bootValue: bv32): (address: bv32)
    ensures address & 0xC000_0000 == 0xC000_0000
  {
    bootValue | 0xC000_0000
  }

  /** Setting the top two bits maps any physical address below 1 GiB to its
      alias in the kernel half. */
  lemma InitfsAddressIsHigherHalf(bootValue: bv32)
    ensures InitfsAddress(bootValue) >= 0xC000_0000
    ensures InitfsAddress(bootValue) == 0xC000_0000 + (bootValue & 0x3FFF_FFFF)
    ensures bootValue < 0x4000_0000 ==> InitfsAddress(bootValue) == 0xC000_0000 + bootValue
  {
  }

  /** The low 30 bits of any address are kept, and applying the fix-up a
      second time changes nothing. */
  lemma InitfsAddressKeepsLowBits(bootValue: bv32)
    ensures InitfsAddress(bootValue) & 0x3FFF_FFFF == bootValue & 0x3FFF_FFFF
    ensures InitfsAddress(InitfsAddress(bootValue)) == InitfsAddress(bootValue)
  {
  }

  /** The inline assembly of `init_memory_new` that moves `esp` into the
      higher half: `esp - stack_start + 0xffbfe000`, in wrapping 32-bit
      arithmetic. */
  function RelocatedEsp(esp: U32, stackStart: U32): (relocated: U32)
    ensures (relocated - HIGH_STACK_BASE + stackStart) % U32_LIMIT == esp
  {
    (esp - stackStart + HIGH_STACK_BASE) % U32_LIMIT
  }

  /** The stack pointer keeps its offset from the stack's start: it is that
      offset above 0xffbfe000 (while the offset stays below the 4 GiB
      boundary), so a pointer inside the one-page boot stack lands inside the
      page at 0xffbfe000; its position in its page is kept when the stack is
      page-aligned. */
  lemma RelocationKeepsOffset(esp: U32, stackStart: U32)
    ensures stackStart <= esp && esp - stackStart < U32_LIMIT - HIGH_STACK_BASE ==>
      RelocatedEsp(esp, stackStart) == HIGH_STACK_BASE + (esp - stackStart)
    ensures stackStart <= esp <= stackStart + PAGE_SIZE ==>
      HIGH_STACK_BASE <= RelocatedEsp(esp, stackStart) <= HIGH_STACK_BASE + PAGE_SIZE
    ensures stackStart % PAGE_SIZE == 0 ==> RelocatedEsp(esp, stackStart) % PAGE_SIZE == esp % PAGE_SIZE
  {
  }

  /** The kernel heap that `_start` maps: `frames` pages from 0xc0400000,
      as the half-open range of its addresses. */
  function HeapRange(frames: nat): (range: (nat, nat))
    ensures range.1 - range.0 == frames * PAGE_SIZE
    ensures range.0 / 0x40_0000 == 0x301
  {
    (HEAP_START, HEAP_START + frames * PAGE_SIZE)
  }

  /** The heap is exactly `frames` pages, page-aligned, starts in the
      directory slot just after the 4 MiB that hold the kernel image
      (0x301), and stays below the self-mapping slot as long as it has at
      most 0x3f800 frames. */
  lemma HeapRangeIsInKernelHalf(frames: nat)
    ensures HeapRange(frames).0 % PAGE_SIZE == 0 && HeapRange(frames).1 % PAGE_SIZE == 0
    ensures HeapRange(frames).0 >= KERNEL_BASE + 0x40_0000
    ensures frames <= 0x3_F800 <==> HeapRange(frames).1 <= SELF_MAP_BASE
  {
  }

  /** The two arguments of `init_allocator`: `__rw_physical_end` and
      0x1000. Read as an address and a length, on a well-formed layout the
      region lies after the kernel image: `zero_bss` stores to none of its
      addresses, and none of them is on the boot stack. */
  function AllocatorRegion(symbols: LinkerSymbols): (region: (nat, nat))
    ensures symbols.WellFormed() ==>
      forall a :: region.0 <= a < region.0 + region.1 ==>
        a !in AscendingRange(symbols.bssStart, symbols.bssEnd) &&
        !(symbols.stackStart <= a < symbols.stackStart + PAGE_SIZE)
  {
    (symbols.rwPhysicalEnd, 0x1000)
  }
}
