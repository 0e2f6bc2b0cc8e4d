# imm-dos-nx kernel core, modelled in Dafny

This project models the sequential core of the imm-dos-nx x86 kernel. There is one Dafny module per kernel source file:

- `Switching` (`task/switching.rs`): the cooperative round-robin scheduler over the task map, `fork`, timeout updates, and the construction of a forked page directory.
- `ProcessStates` (`process/process_state.rs`): the `Running` / `Sleeping(ms)` state machine driven by timer ticks, creation of the first process and of forked children, the split of a kernel stack pointer into page-directory and page-table indices, and the five-word interrupt-return frame written below a new process's kernel stack pointer.
- `ProcessMaps` (`process/map.rs`): the PID allocator (a counter starting at 1), the PID → process table and the current PID.
- `DevFs` (`filesystems/dev/mod.rs`): the `DEV:` filesystem. It turns a path into an 8-byte, space-padded device name and keeps the handle → device table. It also states when each operation succeeds and when it fails.
- `Fat12Directory` (`filesystems/fat12/directory.rs`): the 32-byte FAT directory entry, with:
  - its layout, following the "FAT Directory Structure" section of Microsoft's FAT32 File System Specification, version 1.03;
  - the attribute test (`ATTR_VOLUME_ID` = 0x08, `ATTR_DIRECTORY` = 0x10) and the end-of-directory mark (a first name byte of 0);
  - name copying and wildcard matching;
  - the bounded entry iterator.
- `Syscall` (`interrupts/syscall.rs`): the system-call dispatcher, which acts on the saved register record.
- `Memory` (`memory/mod.rs`): the first page directory and the identity-mapping page table that `init_paging` builds.
- `Boot` (`lib.rs`): clearing the BSS, the higher-half address of the init filesystem, the relocation of the boot stack, the kernel heap range, and where the physical allocator is placed.
- `Common`: 32-bit words, page-table entries, `Option` and `Result`.

Code that updates state in place is modelled as classes with `modifies` clauses, or as methods on arrays. This covers the task table, process state, process map, device table, directory iterator, saved registers, page tables and BSS memory. Pure decisions are modelled as functions, and lemmas state what the code promises about them.

Some collaborators live in files that are not part of this model. They become function parameters or oracle datatypes (`Devices`, `Kernel`), so every result is proved for all of their behaviours:

- `can_resume`, `create_fork`, `update_timeouts` and `MS_PER_TICK`;
- `SystemError::to_code` and reading a `StringPtr`;
- the `exec`, `file` and `fs` system calls;
- the device registry and driver operations;
- `name_character_matches` and the frame allocator's `is_free`;
- `STACK_START`, freshly allocated frames, and the linker-script symbols.

Two collaborators are not part of this model, and it assumes they are plain counters:

- The device filesystem's `HandleAllocator` hands out 0, 1, 2, … and never reuses a handle.
- The task `IDGenerator` hands out 1, 2, … after the idle task 0.

The layout that the linker script guarantees is stated as `Boot.LinkerSymbols.WellFormed`: the read-only data, then the read-write data, with the BSS and then the one-page boot stack inside the read-write data, and the stack page-aligned.

## Model

| member | source | states |
|---|---|---|
| Switching.FindNextRunningProcess | kernel/src/task/switching.rs:48-68 | The answer is never the current ID and is always a present, resumable process. It is the smallest resumable ID above the current one when such an ID exists. Otherwise it wraps to the smallest resumable ID. It is `None` exactly when no other process can resume. |
| Switching.RoundRobinChoiceIsUnique | kernel/src/task/switching.rs:45-67 | The round-robin rule leaves no choice: two answers that both satisfy it are equal. |
| Switching.TaskTable.Initialize | kernel/src/task/switching.rs:35-41 | The table holds only the idle task, under ID 0. The current ID is 0 and the next generated ID is 1. |
| Switching.TaskTable.FindNext | kernel/src/task/switching.rs:48-68 | The round-robin rule over the table's processes in key order. Any answer is present, differs from the current ID, and its process can resume. |
| Switching.TaskTable.YieldCoop | kernel/src/task/switching.rs:27-33 | The current ID moves to the chooser's answer, or stays the same when the answer is `None`. Nothing else changes. |
| Switching.TaskTable.NextId | kernel/src/task/switching.rs:95 | Returns the generator's value and advances it by one. |
| Switching.TaskTable.Fork | kernel/src/task/switching.rs:93-107 | Exactly one key is added: the freshly generated ID, which was absent before and is returned. The generator advances by exactly one. The new entry holds `create_fork` of the current process. Every existing entry is untouched and the table invariant is kept. |
| Switching.TaskTable.UpdateTimeouts | kernel/src/task/switching.rs:196-201 | Every process receives the elapsed time, and the set of IDs is unchanged. |
| Switching.ForkPageDirectory | kernel/src/task/switching.rs:203-226 | Slot 1023 maps the directory's own frame and is present. Slots 0x300..0x3fe copy the current directory's table address exactly where that slot is present, and are empty otherwise. Every user slot below 0x300 is empty. |
| ProcessStates.Tick | kernel/src/process/process_state.rs:250-263 | A running process stays running. A tick that leaves a process asleep took exactly one tick length off its remaining time. A sleeper that wakes had at most one tick length left. |
| ProcessStates.Ticks | kernel/src/process/process_state.rs:250-263 | Any number of ticks leaves a running process running. A process still asleep after `n` ticks has lost exactly `n` tick lengths. |
| ProcessStates.WakeTicks | kernel/src/process/process_state.rs:250-263 | The number of ticks a sleeper needs is the duration divided by the tick length, rounded up, and at least 1. |
| ProcessStates.SleepCountsDown | kernel/src/process/process_state.rs:253-257 | Before it wakes, a sleeper loses exactly one tick length per tick. |
| ProcessStates.SleeperWakes | kernel/src/process/process_state.rs:250-263 | A sleeper is running after exactly `WakeTicks` ticks and is still sleeping at every earlier tick. |
| ProcessStates.DirectoryIndex | kernel/src/process/process_state.rs:168 | `esp >> 22` is below 1024. |
| ProcessStates.TableIndex | kernel/src/process/process_state.rs:169 | `(esp >> 12) & 0x3ff` is below 1024. |
| ProcessStates.IndexSplit | kernel/src/process/process_state.rs:168-169 | The two indices and the offset in the page add back up to the address: no bit is lost. |
| ProcessStates.InterruptReturnFrame | kernel/src/process/process_state.rs:192-201 | The frame has five words, with the instruction pointer lowest and the user stack pointer fourth. |
| ProcessStates.ProcessState.First | kernel/src/process/process_state.rs:46-89 | The process is its own parent and runs in the current directory. It is `Running`, has `kernel_esp == 0` and has no open files. |
| ProcessStates.ProcessState.Fork | kernel/src/process/process_state.rs:95-114 | The child's parent is this process. The child gets the new directory, `kernel_esp == STACK_START + 0x1000 - 4`, an empty file table, and the `Running` state. |
| ProcessStates.ProcessState.IsRunning | kernel/src/process/process_state.rs:265-271 | True only for a state that no tick changes. When false, the process sleeps, and a tick as long as its remaining time wakes it. |
| ProcessStates.ProcessState.Sleep | kernel/src/process/process_state.rs:245-248 | The state becomes `Sleeping(ms)`, so `is_running` is false. |
| ProcessStates.ProcessState.UpdateTick | kernel/src/process/process_state.rs:250-263 | `Sleeping(d)` with `d > MS_PER_TICK` becomes `Sleeping(d - MS_PER_TICK)`. Any other sleeper becomes `Running`. `Running` stays `Running`. |
| ProcessStates.ProcessState.MakeCurrentStackFrameEditable | kernel/src/process/process_state.rs:166-183 | The directory read is this process's own, the one at `page_directory`. A fresh frame is installed only when the stack's table slot is not present. The returned frame is the one that slot maps. No other slot of the table changes. |
| ProcessStates.ProcessState.SetInitialEntryPoint | kernel/src/process/process_state.rs:185-204 | The words at offsets -5..-1 below `kernel_esp` become `func`, 0x1b, 0x200, `esp`, 0x23. `kernel_esp` drops by exactly 20, and nothing else on the page changes. |
| ProcessMaps.ProcessMap.constructor | kernel/src/process/map.rs:17-23 | The current PID is 0, the next PID is 1, and there are no processes. |
| ProcessMaps.ProcessMap.GetNextPid | kernel/src/process/map.rs:25-28 | Returns the previous counter and adds one, wrapping at 2^32. |
| ProcessMaps.ProcessMap.SpawnProcess | kernel/src/process/map.rs:25-34 | The returned PID is the old counter and the counter grows by one. `get_process` of the PID is `Some` and every other lookup is unchanged. Until the counter wraps, the PID is new, nonzero, and larger than every earlier PID. |
| ProcessMaps.ProcessMap.GetProcess | kernel/src/process/map.rs:36-38 | `Some` exactly for stored PIDs, holding the stored process. |
| ProcessMaps.ProcessMap.GetCurrentProcess | kernel/src/process/map.rs:40-42 | Exactly the lookup of the current PID. |
| ProcessMaps.ProcessMap.MakeCurrent | kernel/src/process/map.rs:44-46 | Only the current PID changes, and the current process becomes the one stored under that PID. |
| DevFs.LocalPath | kernel/src/filesystems/dev/mod.rs:35-39 | At most one leading backslash is removed. |
| DevFs.PaddedName | kernel/src/filesystems/dev/mod.rs:42-50 | The name is eight bytes: the first `min(8, len)` bytes of the path, then spaces (0x20). |
| DevFs.PaddedNameKeepsShortNames | kernel/src/filesystems/dev/mod.rs:42-50 | A path of at most eight bytes is the name's prefix, followed only by spaces. |
| DevFs.DeviceName | kernel/src/filesystems/dev/mod.rs:42-50 | The buffer loop computes exactly the padded name. |
| DevFs.DevFileSystem.constructor | kernel/src/filesystems/dev/mod.rs:17-22 | No handle has been given out and the table is empty. |
| DevFs.DevFileSystem.GetDeviceForHandle | kernel/src/filesystems/dev/mod.rs:24-30 | `None` at or beyond the table's end, otherwise the stored slot. |
| DevFs.DevFileSystem.AllocateHandle | kernel/src/filesystems/dev/mod.rs:55 | Returns the next handle and advances the allocator. |
| DevFs.DevFileSystem.Open | kernel/src/filesystems/dev/mod.rs:34-69 | An unknown name is `Err`, with no handle used and the table untouched. A missing driver or a refused driver `open` is `Err`, with the handle used and the table untouched. On success with handle `h`, the old table is padded with `None` up to `h`, then `Some(number)` is appended: the length is `h + 1` and slot `h` holds the device. |
| DevFs.DevFileSystem.Read | kernel/src/filesystems/dev/mod.rs:71-82 | `Err` for a handle without a device or a device without a driver. When both exist, the result is the driver's answer for that handle's device, success or failure. |
| DevFs.DevFileSystem.Write | kernel/src/filesystems/dev/mod.rs:84-95 | As `Read`, with the driver's `write`. |
| DevFs.DevFileSystem.Seek | kernel/src/filesystems/dev/mod.rs:124-135 | As `Read`, with the driver's `seek`. |
| DevFs.DevFileSystem.Close | kernel/src/filesystems/dev/mod.rs:97-100 | Always `Err`. |
| DevFs.DevFileSystem.OpenDir | kernel/src/filesystems/dev/mod.rs:137-139 | Always `Err`. |
| DevFs.DevFileSystem.ReadDir | kernel/src/filesystems/dev/mod.rs:141-143 | Always `Err`. |
| DevFs.DevFileSystem.Ioctl | kernel/src/filesystems/dev/mod.rs:115-122 | Command 0 returns the handle's device number, or `Err` for an unmapped handle. Every other command is `Err`. |
| DevFs.DevFileSystem.Dup | kernel/src/filesystems/dev/mod.rs:102-113 | As written: an unmapped handle is `Err` with nothing changed. Otherwise a new handle is taken and `Some(device)` is appended at the table's end, with no padding. |
| DevFs.DevFileSystem.DupPadded | kernel/src/filesystems/dev/mod.rs:102-113 | Corrected `dup`: the table is padded as in `open`, so the new handle's slot holds the duplicated device. |
| DevFs.DupAfterRefusedOpen | kernel/src/filesystems/dev/mod.rs:102-113 | An open whose driver refused it, followed by `dup(0)`, returns handle 2, which maps to no device. |
| DevFs.DupPaddedAfterRefusedOpen | kernel/src/filesystems/dev/mod.rs:102-113 | The same sequence with the corrected `dup`: handle 2 maps to the device. |
| Fat12Directory.DirectoryEntry.GetFileType | kernel/src/filesystems/fat12/directory.rs:67-75 | `VolumeLabel` exactly when bit 0x08 is set, even if bit 0x10 is also set. `Directory` exactly when only bit 0x10 of the two is set. Otherwise `File`. |
| Fat12Directory.DirectoryEntry.IsEmpty | kernel/src/filesystems/fat12/directory.rs:81-83 | True exactly when the entry's record on disk starts with a zero byte. |
| Fat12Directory.Encode | kernel/src/filesystems/fat12/directory.rs:20-49 | The packed entry is 32 bytes, with name, extension and attributes at bytes 0..8, 8..11 and 11. |
| Fat12Directory.Decode | kernel/src/filesystems/fat12/directory.rs:20-57 | Reading 32 bytes as an entry. `is_empty` holds exactly when the first byte is 0. |
| Fat12Directory.DecodeEncode | kernel/src/filesystems/fat12/directory.rs:20-49 | Reading back a written entry gives the same entry. |
| Fat12Directory.EncodeDecode | kernel/src/filesystems/fat12/directory.rs:20-49 | Writing back a read entry gives the same 32 bytes. |
| Fat12Directory.CopyName | kernel/src/filesystems/fat12/directory.rs:85-89 | The buffer holds exactly the eight name bytes. |
| Fat12Directory.CopyExt | kernel/src/filesystems/fat12/directory.rs:91-95 | The buffer holds exactly the three extension bytes. |
| Fat12Directory.GetFullName | kernel/src/filesystems/fat12/directory.rs:97-104 | `buffer[0..8]` is the name and `buffer[8..11]` is the extension, which equals the first 11 bytes of the entry on disk. |
| Fat12Directory.NameMatchesSearch | kernel/src/filesystems/fat12/directory.rs:110-122 | True exactly when the character test passes at all 8 name positions and all 3 extension positions. |
| Fat12Directory.DirectoryEntryIterator.constructor | kernel/src/filesystems/fat12/directory.rs:134-142 | Starts at entry 0, having yielded nothing. |
| Fat12Directory.DirectoryEntryIterator.Next | kernel/src/filesystems/fat12/directory.rs:148-161 | At the bound or on an empty entry, the answer is `None` and nothing changes, so every later call is `None` too. Otherwise it yields the entry at `current` and advances `current`. `current` never exceeds `max_count`, and every entry yielded is non-empty. |
| Syscall.NewEax | kernel/src/interrupts/syscall.rs:20-191 | The answer of stub numbers and of exit, sleep and yield is the call number itself, so `eax` keeps its value. An unknown number answers the code of `Unknown`. 0xffff answers 0. |
| Syscall.Dispatch | kernel/src/interrupts/syscall.rs:19-192 | Only `eax` can change. The stub numbers 0x4, 0x7, 0x8, 0x14-0x1c and 0x30-0x33, and exit, sleep and yield, leave every register unchanged. An unknown number gives the code of `Unknown`, and 0xffff gives 0. |
| Syscall.FileCallAnswers | kernel/src/interrupts/syscall.rs:31-110 | `open`, `close`, `read`, `write` and `exec` answer their success value or `e.to_code()`. `close` takes its handle from `eax`. `exec` with `ecx == 0` passes the empty string. |
| Syscall.FailureAnswers | kernel/src/interrupts/syscall.rs:138-169 | Any failure of `dup` or `pipe` gives 0xffffffff. Any failure of `ioctl` gives the code of `UnsupportedCommand`. |
| Syscall.SyscallInner | kernel/src/interrupts/syscall.rs:19-192 | The in-place update of the saved registers equals `Dispatch` of the old registers. |
| Memory.IdentityEntry | kernel/src/memory/mod.rs:41-50 | A present entry maps its own frame, `i * 0x1000`. Every entry of the first MiB is present. |
| Memory.IdentityEntryMapsInUseFrames | kernel/src/memory/mod.rs:40-51 | Entry `i` is present exactly when `i < 256` or frame `i` is not free. A present entry maps address `i * 0x1000`. Any other entry is a fresh, empty entry. |
| Memory.IdentityTranslation | kernel/src/memory/mod.rs:33-51 | Every mapped address below 4 MiB translates to itself. |
| Memory.InitPaging | kernel/src/memory/mod.rs:22-55 | Directory slot 0 maps the new table and slot 1023 maps the directory itself. Every other slot is empty. Each of the 1024 table entries is the identity entry above. |
| Boot.AscendingRange | kernel/src/lib.rs:88-94 | The stores of the `zero_bss` loop: as many as the range has addresses (none when it is empty or inverted), the `k`-th at `start + k`. |
| Boot.ZeroBss | kernel/src/lib.rs:87-95 | Every byte of `[bss_start, bss_end)` is 0 and no other byte changes. The stores go to exactly those addresses, in ascending order. |
| Boot.ZeroBssSparesStack | kernel/src/lib.rs:87-95 | On a well-formed layout, every store of `zero_bss` lands in the read-write data below the boot stack, so no address of the stack's page is written. |
| Boot.InitfsAddress | kernel/src/lib.rs:154-157 | Both top bits of the result are set, so it lies in the kernel's quarter of the address space. |
| Boot.InitfsAddressIsHigherHalf | kernel/src/lib.rs:154-157 | The ORed address is at least 0xc0000000: it is 0xc0000000 plus the low 30 bits. |
| Boot.InitfsAddressKeepsLowBits | kernel/src/lib.rs:154-157 | The low 30 bits are kept, and ORing again changes nothing. |
| Boot.RelocatedEsp | kernel/src/lib.rs:124-128 | The move can be undone: subtracting 0xffbfe000 and adding `stack_start` back, with 32-bit wrap-around, gives the old `esp`. |
| Boot.RelocationKeepsOffset | kernel/src/lib.rs:122-133 | `esp - stack_start + 0xffbfe000` keeps the offset from the stack's start, so a pointer in the boot stack lands in the page at 0xffbfe000. It keeps the offset in the page when the stack is page-aligned. |
| Boot.HeapRange | kernel/src/lib.rs:175-180 | The range is exactly `frames` pages long and starts in directory slot 0x301. |
| Boot.HeapRangeIsInKernelHalf | kernel/src/lib.rs:175-181 | The heap is page-aligned at both ends and starts above the kernel image's 4 MiB. It stays below the self-mapping slot exactly when it has at most 0x3f800 frames. |
| Boot.AllocatorRegion | kernel/src/lib.rs:105-106 | The two arguments of `init_allocator` are `__rw_physical_end` and 0x1000. On a well-formed layout, none of the 0x1000 addresses from `__rw_physical_end` is stored to by `zero_bss`, and none is on the boot stack. |

## Left out

- Inline assembly and hardware state are not modelled, since they are hardware effects:
  - `switch_to`, `switch_inner`, `usermode_enter` and `usermode_enter_inner`;
  - the `cr3` loads and the TSS update;
  - `make_active` and `enable_paging`, and `high_jump`;
  - the `or ebx, 0xc0000000` fix-up, and `cli` / `sti` / `hlt`.

  `YieldCoop` models only the change of the current ID.
- Locks and atomics (`RwLock`, `Arc`, `AtomicU32`, `TASK_MAP`, `CURRENT_ID`) are plain fields. The kernel's locking discipline is not modelled.
- `switching.rs` `get_process`, `get_current_id` and `get_current_process` are plain map lookups. `get_current_process` panics when the current process is missing; `TaskTable.Fork` requires it instead. `TaskTable.YieldCoop` does not model that panic: when the current process is missing and another process can resume, `switch_to` panics, while the model simply switches.
- `switching.rs` `kfork` and `map_kernel_stack` are not modelled: they push onto a process stack and map pages through code that is not part of this model.
- Switching.TaskTable.Fork: the store of the new page directory into the child (`switching.rs:101`) is not modelled separately. The process type is abstract, so the child is exactly what `create_fork` returns. The directory itself is built by `Switching.ForkPageDirectory`.
- Switching.ForkPageDirectory: the frame allocation, the scratch-page mapping and the read of the current directory through 0xfffff000 are not modelled. The frame is a parameter and the current directory is given as a sequence.
- `process_state.rs` `fork` calls `self.fork_page_directory()`, which is commented out in that file and not available. The child's directory is a parameter.
- `process_state.rs` `memory_regions` (`MemoryRegions`) is not part of this model, and neither is `get_range_containing_address`.
- `process_state.rs` `open_file`, `close_file` and `get_open_file_info` delegate to `FileHandleMap`, which is not part of this model. The other getters just return fields.
- ProcessStates.ProcessState.MakeCurrentStackFrameEditable: the temporary-page mappings are not modelled. Page tables are arrays looked up by physical address, and the frame allocator is a single fresh-frame parameter.
- ProcessStates.ProcessState.SetInitialEntryPoint: requires `kernel_esp` to be word-aligned, with at least 20 bytes below it in its page. The source does not check this and writes through a raw pointer. It also calls `make_current_stack_frame_editable` first; here the mapped page is passed in.
- ProcessMaps.ProcessMap.SpawnProcess: the stored process is built by `ProcessState::new(pid)`, which is not part of this model, so the entry keeps only its PID. Freshness and ordering of PIDs are proved only while the 32-bit counter has not wrapped.
- `HandleAllocator` (dev filesystem) and `IDGenerator` (task IDs) are not part of this model. They are assumed to be counters that start at 0 and at 1.
- DevFs.DevFileSystem.Read: the bytes the driver places in the caller's buffer are not modelled, only the result. `SeekMethod` is an abstract type.
- `fat12/directory.rs` `at_address` (reading an entry through a raw pointer) becomes `Decode` of 32 bytes. The iterator returns a copy of the entry rather than a `&mut` into the directory.
- `fat12/directory.rs` `get_name`, `get_ext`, `get_first_cluster`, `get_byte_size`, `Directory` and `FileReference` are field accessors and containers only.
- Syscall.Dispatch: the services' side effects are not modelled. This covers process exit, sleeping, yielding and file I/O, the `wait_pid` status written through `ecx`, and the pipe handles written through `ebx` and `ecx`. `exit` does not return in the source; the model leaves the registers unchanged. The `kprintln!` of syscall 0xffff is output only.
- `memory/mod.rs` `init`, `count_frames`, `count_free_frames` and `allocate_physical_frame` delegate to the frame allocator, which is not part of this model. The two frames that `init_paging` allocates are parameters, and the panic of `unwrap` on exhaustion is not modelled.
- Boot.AllocatorRegion: `init_allocator` is not part of this model, so the meaning of its second argument 0x1000 is not known here. The disjointness clause reads it as a length in bytes.
- Memory.InitPaging: `set_table_at_entry` and `set_last_entry_to_self` are in `paging`, which is not part of this model. They are assumed to write the frame address with the present bit.
- `lib.rs`: the following are orchestration or I/O and are not modelled:
  - `init_tables`;
  - `memory::virt` page-table set-up and heap mapping;
  - `kprintln!`;
  - device, TTY, clock and filesystem initialisation;
  - the pipe self-test, process spawning and `user_init`.
- The linker-script symbols are parameters, and their layout is assumed through `LinkerSymbols.WellFormed`. The linker script itself is not part of this model.

## Findings

| source | as written | input that shows it | evidently intended | confidence | as-written member | corrected member |
|---|---|---|---|---|---|---|
| kernel/src/filesystems/dev/mod.rs:102-113 | `dup` takes a new handle from the allocator but pushes the device at the current end of `handle_to_device`, without the padding that `open` does (lines 61-63). | `open("\COM1")` gives handle 0. A second `open("\COM1")` whose driver refuses handle 1 uses handle 1 without growing the table. `dup(0)` then returns handle 2 but stores the device in slot 1, so `get_device_for_handle(2)` is `None`. | The table is padded with `None` up to the new handle before the device is pushed, so the duplicate handle maps to the duplicated device. | not executed | DevFs.DevFileSystem.Dup, DevFs.DupAfterRefusedOpen | DevFs.DevFileSystem.DupPadded, DevFs.DupPaddedAfterRefusedOpen |
