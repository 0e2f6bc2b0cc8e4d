/** The process table of `process/map.rs`: a PID allocator (a 32-bit
    counter that starts at 1), the map from PID to process, and the PID of
    the current process. */
module ProcessMaps {
  import opened Common

  /** What the table stores for a spawned process. The process is built by
      `ProcessState::new(pid)`, which is not part of this model; the entry
      keeps the one thing known about it, the PID it was built with. */
  datatype ProcessEntry = ProcessEntry(pid: U32)

  class ProcessMap {
    var current: U32
    /** `next_pid`, an `AtomicU32` whose increment wraps around. */
    var nextPid: U32
    var processes: map<U32, ProcessEntry>

    /** Every stored process sits under its own PID, and every PID handed
        out so far lies in `1 .. nextPid`: this holds as long as the counter
        has not wrapped around. */
    ghost predicate Valid()
      reads this
    {
      && nextPid >= 1
      && forall pid :: pid in processes ==> 1 <= pid < nextPid && processes[pid].pid == pid
    }

    /** `new`: no processes, current PID 0, first PID to hand out 1. */
    constructor ()
      ensures Valid()
      ensures current == 0 && nextPid == 1 && processes == map[]
    {
      current := 0;
      nextPid := 1;
      processes := map[];
    }

    /** `get_next_pid`: `fetch_add(1)`, returning the value before the
        increment. */
    method GetNextPid() returns (pid: U32)
      modifies this`nextPid
      ensures pid == old(nextPid)
      ensures nextPid == (old(nextPid) + 1) % U32_LIMIT
    {
      pid := nextPid;
      nextPid := (nextPid + 1) % U32_LIMIT;
    }

    /** `spawn_process`: take the next PID and store a new process under it.
        Only that key changes. While the counter has not wrapped, the PID is
        new, nonzero, and larger than every PID handed out before. */
    method SpawnProcess() returns (pid: U32)
      modifies this`nextPid, this`processes
      ensures pid == old(nextPid)
      ensures nextPid == (old(nextPid) + 1) % U32_LIMIT
      ensures processes == old(processes)[pid := ProcessEntry(pid)]
      ensures GetProcess(pid) == Some(ProcessEntry(pid))
      ensures forall other :: other != pid ==> GetProcess(other) == old(GetProcess(other))
      ensures current == old(current)
      ensures old(Valid()) && old(nextPid) + 1 < U32_LIMIT ==>
        && Valid()
        && pid != 0 && pid !in old(processes) && pid < nextPid
        && forall earlier :: earlier in old(processes) ==> earlier < pid
    {
      pid := GetNextPid();
      processes := processes[pid := ProcessEntry(pid)];
    }

    function GetProcess(pid: U32): (r: Option<ProcessEntry>)
      reads this
      ensures r.Some? <==> pid in processes
      ensures r.Some? ==> r.value == processes[pid]
    {
      if pid in processes then Some(processes[pid]) else None
    }

    /** `get_current_process`: exactly the lookup of the current PID. */
    function GetCurrentProcess(): (r: Option<ProcessEntry>)
      reads this
      ensures r == GetProcess(current)
    {
      if current in processes then Some(processes[current]) else None
    }

    /** `make_current`: only the current PID changes. */
    method MakeCurrent(pid: U32)
      modifies this`current
      ensures current == pid
      ensures GetCurrentProcess() == GetProcess(pid)
    {
      current := pid;
    }
  }
}
