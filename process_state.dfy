/** Per-process state of `process/process_state.rs`: the run-state machine
    driven by timer ticks, creation of the first process and of forked
    children, and the kernel-stack bookkeeping that prepares a new process's
    first return to user mode. */
module ProcessStates {
  import opened Common

  datatype RunState = Running | Sleeping(ms: nat)

  /** One timer tick (`update_tick`): a sleeper with more than one tick's
      worth of time left loses a tick's worth of milliseconds; any other
      sleeper wakes up; a running process is left alone. */
  function Tick(s: RunState, msPerTick: nat): (r: RunState)
    ensures s.Running? ==> r == Running
    ensures r.Sleeping? ==> s.Sleeping? && r.ms + msPerTick == s.ms
    ensures s.Sleeping? && r.Running? ==> s.ms <= msPerTick
  {
    match s
    case Sleeping(duration) =>
      if duration > msPerTick then Sleeping(duration - msPerTick) else Running
    case Running => Running
  }

  /** `n` consecutive ticks. Ticking a running process changes nothing,
      however often it happens; a process still asleep after `n` ticks has
      lost exactly `n` tick lengths. */
  function Ticks(s: RunState, msPerTick: nat, n: nat): (r: RunState)
    ensures s.Running? ==> r == Running
    ensures r.Sleeping? ==> s.Sleeping? && r.ms + n * msPerTick == s.ms
    decreases n
  {
    if n == 0 then s
    else
      var r := Ticks(Tick(s, msPerTick), msPerTick, n - 1);
      assert (n - 1) * msPerTick + msPerTick == n * msPerTick;
      r
  }

  /** How many ticks a `Sleeping(duration)` process needs to wake: the
      duration divided by the tick length, rounded up, and never fewer than
      one tick. */
  function WakeTicks(duration: nat, msPerTick: nat): (n: nat)
    requires msPerTick > 0
    ensures n >= 1
    ensures duration <= n * msPerTick
    ensures n == 1 || (n - 1) * msPerTick < duration
    decreases duration
  {
    if duration <= msPerTick then 1 else 1 + WakeTicks(duration - msPerTick, msPerTick)
  }

  /** Before it wakes, a sleeper counts down by exactly one tick length per
      tick. */
  lemma {:induction false} SleepCountsDown(duration: nat, msPerTick: nat, n: nat)
    requires msPerTick > 0 && n < WakeTicks(duration, msPerTick)
    ensures n * msPerTick <= duration
    ensures Ticks(Sleeping(duration), msPerTick, n) == Sleeping(duration - n * msPerTick)
    decreases n
  {
    if n > 0 {
      assert duration > msPerTick;
      SleepCountsDown(duration - msPerTick, msPerTick, n - 1);
      assert Tick(Sleeping(duration), msPerTick) == Sleeping(duration - msPerTick);
      assert (n - 1) * msPerTick + msPerTick == n * msPerTick;
    }
  }

  /** A sleeper is running again after exactly `WakeTicks` ticks, and not
      before. */
  lemma {:induction false} SleeperWakes(duration: nat, msPerTick: nat)
    requires msPerTick > 0
    ensures Ticks(Sleeping(duration), msPerTick, WakeTicks(duration, msPerTick)) == Running
    ensures forall n :: 0 <= n < WakeTicks(duration, msPerTick) ==> Ticks(Sleeping(duration), msPerTick, n).Sleeping?
    decreases duration
  {
    forall n | 0 <= n < WakeTicks(duration, msPerTick)
      ensures Ticks(Sleeping(duration), msPerTick, n).Sleeping?
    {
      SleepCountsDown(duration, msPerTick, n);
    }
    if duration > msPerTick {
      SleeperWakes(duration - msPerTick, msPerTick);
    }
  }

  /** The two halves of a 32-bit virtual address that select the page
      directory slot (`esp >> 22`) and the page table slot
      (`(esp >> 12) & 0x3ff`), written as division and remainder by powers
      of two. */
  function DirectoryIndex(address: U32): (d: nat)
    ensures d < TABLE_ENTRIES
  {
    address / 0x40_0000
  }

  function TableIndex(address: U32): (t: nat)
    ensures t < TABLE_ENTRIES
  {
    (address / 0x1000) % 0x400
  }

  /** The two indices and the offset in the page together are the address:
      no bit is lost or counted twice. */
  lemma IndexSplit(address: U32)
    ensures DirectoryIndex(address) * 0x40_0000 + TableIndex(address) * 0x1000 + address % 0x1000 == address
  {
    var page := address / 0x1000;
    assert address == page * 0x1000 + address % 0x1000;
    assert page == (page / 0x400) * 0x400 + page % 0x400;
    assert page / 0x400 == address / 0x40_0000;
  }

  /** The five words below the stack top that `iretd` pops when the process
      first enters user mode, from the lowest address up: instruction
      pointer, user code segment 0x1b, EFLAGS with interrupts enabled 0x200,
      user stack pointer, user stack segment 0x23. */
  function InterruptReturnFrame(func: U32, esp: U32): (frame: seq<U32>)
    ensures |frame| == 5
    ensures frame[0] == func && frame[3] == esp
  {
    [func, 0x1b, 0x200, esp, 0x23]
  }

  /** One entry of a process's file table (`DeviceHandlePair`). */
  datatype DeviceHandlePair = DeviceHandlePair(drive: nat, local: nat)

  class ProcessState {
    const pid: nat
    const parent: nat
    /** Physical address of the process's page directory. */
    const pageDirectory: nat
    var kernelEsp: U32
    /** `open_files`, as the map from file handle to drive and local handle. */
    var openFiles: map<nat, DeviceHandlePair>
    var runState: RunState

    /** `first`: the init process, which is its own parent, runs in the
        current page directory, has no kernel stack pointer yet, has no open
        files, and is running. */
    constructor First(pid: nat, currentDirectory: nat)
      ensures this.pid == pid && parent == pid
      ensures pageDirectory == currentDirectory
      ensures kernelEsp == 0 && openFiles == map[] && runState == Running
    {
      this.pid := pid;
      parent := pid;
      pageDirectory := currentDirectory;
      kernelEsp := 0;
      openFiles := map[];
      runState := Running;
    }

    /** `fork`: the child's parent is this process; it gets the new page
        directory, an empty file table, the running state, and a kernel
        stack pointer at the last word of the one-page kernel stack that
        begins at `stackStart` (`STACK_START`). */
    method Fork(childPid: nat, stackStart: nat, newDirectory: nat) returns (child: ProcessState)
      requires stackStart + 0x1000 - 4 < U32_LIMIT
      ensures fresh(child)
      ensures child.pid == childPid && child.parent == pid
      ensures child.pageDirectory == newDirectory
      ensures child.kernelEsp == stackStart + 0x1000 - 4
      ensures child.openFiles == map[] && child.runState == Running
    {
      child := new ProcessState.Child(childPid, pid, newDirectory, stackStart + 0x1000 - 4);
    }

    /** The field-by-field initialiser that `fork` uses. */
    constructor Child(pid: nat, parent: nat, pageDirectory: nat, kernelEsp: U32)
      ensures this.pid == pid && this.parent == parent && this.pageDirectory == pageDirectory
      ensures this.kernelEsp == kernelEsp && openFiles == map[] && runState == Running
    {
      this.pid := pid;
      this.parent := parent;
      this.pageDirectory := pageDirectory;
      this.kernelEsp := kernelEsp;
      openFiles := map[];
      runState := Running;
    }

    /** `is_running`: exactly the state that no tick changes; a sleeper
        wakes on a tick as long as its remaining time. */
    function IsRunning(): (r: bool)
      reads this
      ensures r ==> forall msPerTick :: Tick(runState, msPerTick) == runState
      ensures !r ==> runState.Sleeping? && Tick(runState, runState.ms) == Running
    {
      runState.Running?
    }

    /** `sleep`: whatever the previous state, the process now sleeps for
        `ms` milliseconds and no longer counts as running. */
    method Sleep(ms: nat)
      modifies this`runState
      ensures runState == Sleeping(ms) && !IsRunning()
    {
      runState := Sleeping(ms);
    }

    /** `update_tick`. */
    method UpdateTick(msPerTick: nat)
      modifies this`runState
      ensures runState == Tick(old(runState), msPerTick)
      ensures old(runState) == Running ==> runState == Running
      ensures old(runState).Sleeping? && old(runState).ms > msPerTick ==>
        runState == Sleeping(old(runState).ms - msPerTick)
      ensures old(runState).Sleeping? && old(runState).ms <= msPerTick ==> IsRunning()
    {
      match runState {
        case Sleeping(duration) =>
          if duration > msPerTick {
            var remaining := duration - msPerTick;
            runState := Sleeping(remaining);
            return;
          }
          runState := Running;
        case Running =>
      }
    }

    /** `make_current_stack_frame_editable`: split the kernel stack pointer
        into directory and table slots, find the page table that the
        directory slot points to, and give the table slot a fresh frame if it
        has none yet. Returns the frame that holds the stack top, which the
        source then maps at the temporary page. `tables` holds the page
        tables by physical address, and `directory` is the contents of this
        process's own directory, the one at `pageDirectory`. */
    method MakeCurrentStackFrameEditable(directory: seq<PageEntry>, tables: map<nat, array<PageEntry>>, freshFrame: nat)
      returns (stackFrame: nat)
      requires pageDirectory in tables && directory == tables[pageDirectory][..]
      requires |directory| == TABLE_ENTRIES
      requires directory[DirectoryIndex(kernelEsp)].address in tables
      requires tables[directory[DirectoryIndex(kernelEsp)].address].Length == TABLE_ENTRIES
      modifies tables[directory[DirectoryIndex(kernelEsp)].address]
      ensures var table := tables[directory[DirectoryIndex(kernelEsp)].address];
        && (old(table[TableIndex(kernelEsp)]).present ==>
              table[TableIndex(kernelEsp)] == old(table[TableIndex(kernelEsp)]) &&
              stackFrame == table[TableIndex(kernelEsp)].address)
        && (!old(table[TableIndex(kernelEsp)]).present ==>
              table[TableIndex(kernelEsp)] == MappedEntry(freshFrame) && stackFrame == freshFrame)
        && forall i :: 0 <= i < TABLE_ENTRIES && i != TableIndex(kernelEsp) ==> table[i] == old(table[i])
    {
      var directoryEntry := DirectoryIndex(kernelEsp);
      var tableEntry := TableIndex(kernelEsp);
      var table := tables[directory[directoryEntry].address];
      if !table[tableEntry].present {
        table[tableEntry] := MappedEntry(freshFrame);
      }
      stackFrame := table[tableEntry].address;
    }

    /** `set_initial_entry_point`, on the page that holds the stack top (the
        frame made editable above, as 1024 words): the interrupt-return frame
        is written into the five words just below the stack pointer, and the
        stack pointer is lowered by 20 bytes so that it points at the frame's
        first word. Nothing else on the page changes. The source needs the
        stack pointer word-aligned with room for the five words in its page. */
    method SetInitialEntryPoint(func: U32, esp: U32, stackPage: array<U32>)
      requires stackPage.Length == TABLE_ENTRIES
      requires kernelEsp % 4 == 0 && kernelEsp % 0x1000 >= 20
      modifies this`kernelEsp, stackPage
      ensures kernelEsp == old(kernelEsp) - 20
      ensures var top := old(kernelEsp) % 0x1000 / 4;
        && kernelEsp % 0x1000 / 4 == top - 5
        && stackPage[top - 5..top] == InterruptReturnFrame(func, esp)
        && forall i :: 0 <= i < TABLE_ENTRIES && !(top - 5 <= i < top) ==> stackPage[i] == old(stackPage[i])
    {
      var stackOffset := kernelEsp % 0x1000;
      var top := stackOffset / 4;
      stackPage[top - 1] := 0x23;
      stackPage[top - 2] := esp;
      stackPage[top - 3] := 0x200;
      stackPage[top - 4] := 0x1b;
      stackPage[top - 5] := func;
      kernelEsp := kernelEsp - 4 * 5;
    }
  }
}
