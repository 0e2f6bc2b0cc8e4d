/** The first page directory that `init_paging` in `memory/mod.rs` builds
    before paging is switched on: the directory maps itself in its last slot
    and, in slot 0, one page table that identity-maps the first 4 MiB
    wherever the memory is in use. */
module Memory {
  import opened Common

  /** Frames below this index (the first MiB: BIOS data, the boot code, video
      memory) are always mapped. */
  const LOW_MEMORY_FRAMES: nat := 256
  const SELF_MAP_SLOT: nat := 1023

  /** The entry that `init_paging` gives slot `i` of the identity table:
      mapped to frame `i` when that frame is in the first MiB or is not free,
      left as a fresh, non-present entry otherwise. `isFree` is the frame
      allocator's `is_free`, by the frame's physical address. */
  function IdentityEntry(i: nat, isFree: nat -> bool): (e: PageEntry)
    ensures e.present ==> e.address == i * PAGE_SIZE
    ensures i < LOW_MEMORY_FRAMES ==> e.present
  {
    if !isFree(i * PAGE_SIZE) || i < LOW_MEMORY_FRAMES then MappedEntry(i * PAGE_SIZE) else ZERO_ENTRY
  }

  /** What the identity table promises: an entry is present exactly when its
      frame is low or in use, a present entry maps its own frame (virtual
      address = physical address), and every other entry is empty. */
  lemma IdentityEntryMapsInUseFrames(i: nat, isFree: nat -> bool)
    ensures IdentityEntry(i, isFree).present <==> i < LOW_MEMORY_FRAMES || !isFree(i * PAGE_SIZE)
    ensures IdentityEntry(i, isFree).present ==> IdentityEntry(i, isFree).address == i * PAGE_SIZE
    ensures !IdentityEntry(i, isFree).present ==> IdentityEntry(i, isFree) == ZERO_ENTRY
  {
  }

  /** The identity table maps each page onto itself: the page that holds a
      virtual address below 4 MiB, when mapped, is backed by the frame with
      the same address, so translation is the identity. */
  lemma IdentityTranslation(address: nat, isFree: nat -> bool)
    requires address < TABLE_ENTRIES * PAGE_SIZE
    ensures var e := IdentityEntry(address / PAGE_SIZE, isFree);
      e.present ==> e.address + address % PAGE_SIZE == address
  {
  }

  /** `init_paging`, on the two frames it allocates (`directory` at
      `directoryFrame`, `table` at `tableFrame`). The directory frame is
      zeroed, its last slot set to the directory itself and slot 0 to the
      table; each table slot `i` is then set to `IdentityEntry(i)`. */
  method InitPaging(isFree: nat -> bool, directoryFrame: nat, tableFrame: nat,
                    directory: array<PageEntry>, table: array<PageEntry>)
    requires directory.Length == TABLE_ENTRIES && table.Length == TABLE_ENTRIES
    requires directory != table
    modifies directory, table
    ensures directory[0] == MappedEntry(tableFrame)
    ensures directory[SELF_MAP_SLOT] == MappedEntry(directoryFrame)
    ensures forall i :: 0 < i < SELF_MAP_SLOT ==> directory[i] == ZERO_ENTRY
    ensures forall i :: 0 <= i < TABLE_ENTRIES ==> table[i] == IdentityEntry(i, isFree)
  {
    // dir_frame.zero_memory()
    for i := 0 to TABLE_ENTRIES
      invariant forall j :: 0 <= j < i ==> directory[j] == ZERO_ENTRY
    {
      directory[i] := ZERO_ENTRY;
    }
    // set_last_entry_to_self, set_table_at_entry(table_0_frame, 0)
    directory[SELF_MAP_SLOT] := MappedEntry(directoryFrame);
    directory[0] := MappedEntry(tableFrame);
    for i := 0 to TABLE_ENTRIES
      invariant forall j :: 0 <= j < i ==> table[j] == IdentityEntry(j, isFree)
      invariant directory[0] == MappedEntry(tableFrame)
      invariant directory[SELF_MAP_SLOT] == MappedEntry(directoryFrame)
      invariant forall j :: 0 < j < SELF_MAP_SLOT ==> directory[j] == ZERO_ENTRY
    {
      var frameAddress := i * PAGE_SIZE;
      var isOccupied := !isFree(frameAddress);
      var entry := ZERO_ENTRY;
      if isOccupied || i < LOW_MEMORY_FRAMES {
        entry := MappedEntry(frameAddress);
      }
      table[i] := entry;
    }
  }
}
