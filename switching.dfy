/** The task table and the cooperative scheduler of `task/switching.rs`:
    round-robin choice of the next process, fork, timeout updates, and the
    construction of a forked page directory.

    The global `TASK_MAP` (an ordered `BTreeMap` behind a lock) becomes the
    fields of `TaskTable`: the map itself plus its keys in ascending order,
    which is the order in which the source iterates. A process is of the
    abstract type `P`; its `can_resume`, `create_fork` and `update_timeouts`
    live in a file that is not part of this model and arrive as function
    parameters. */
module Switching {
  import opened Common

  ghost predicate StrictlyIncreasing(ids: seq<nat>) {
    forall i, j :: 0 <= i < j < |ids| ==> ids[i] < ids[j]
  }

  /** A process the scheduler may switch to: present, resumable, and not the
      one that is running now. */
  ghost predicate Candidate(ids: seq<nat>, canResume: nat -> bool, current: nat, id: nat) {
    id in ids && id != current && canResume(id)
  }

  /** What the round-robin rule promises of its answer `next`: it is a
      candidate if any; it is `None` exactly when there is no candidate; it is
      the smallest candidate above `current` when one exists, and otherwise
      the smallest candidate overall (the rule wraps around). */
  ghost predicate IsRoundRobinChoice(ids: seq<nat>, canResume: nat -> bool, current: nat, next: Option<nat>) {
    && (next.Some? ==> Candidate(ids, canResume, current, next.value))
    && (next.None? <==> forall id :: id in ids ==> !Candidate(ids, canResume, current, id))
    && ((exists id: nat :: Candidate(ids, canResume, current, id) && id > current) ==>
          next.Some? && next.value > current &&
          forall id: nat :: Candidate(ids, canResume, current, id) && id > current ==> next.value <= id)
    && ((forall id: nat :: Candidate(ids, canResume, current, id) ==> id <= current) ==>
          next.Some? ==> forall id: nat :: Candidate(ids, canResume, current, id) ==> next.value <= id)
  }

  /** `find_next_running_process`: walk the IDs in ascending order, skip the
      current one, remember the first resumable one, and return the first
      resumable one above the current ID; at the end fall back to the one
      remembered. */
  method FindNextRunningProcess(ids: seq<nat>, canResume: nat -> bool, current: nat) returns (next: Option<nat>)
    requires StrictlyIncreasing(ids)
    ensures IsRoundRobinChoice(ids, canResume, current, next)
  {
    var firstRunnable: Option<nat> := None;
    var k := 0;
    while k < |ids|
      invariant 0 <= k <= |ids|
      invariant firstRunnable.None? <==> forall i :: 0 <= i < k ==> !Candidate(ids, canResume, current, ids[i])
      invariant firstRunnable.Some? ==> Candidate(ids, canResume, current, firstRunnable.value)
      invariant firstRunnable.Some? ==>
        forall i :: 0 <= i < k && Candidate(ids, canResume, current, ids[i]) ==> firstRunnable.value <= ids[i]
      invariant forall i :: 0 <= i < k && Candidate(ids, canResume, current, ids[i]) ==> ids[i] <= current
    {
      var id := ids[k];
      if id == current {
        k := k + 1;
        continue;
      }
      if canResume(id) {
        if firstRunnable.None? {
          firstRunnable := Some(id);
        }
        if id > current {
          assert Candidate(ids, canResume, current, id) by { assert ids[k] == id; }
          forall c: nat | Candidate(ids, canResume, current, c) && c > current
            ensures id <= c
          {
            var j :| 0 <= j < |ids| && ids[j] == c;
            assert k <= j;
          }
          next := Some(id);
          assert !(forall c :: c in ids ==> !Candidate(ids, canResume, current, c));
          return;
        }
      }
      k := k + 1;
    }
    forall c: nat | Candidate(ids, canResume, current, c)
      ensures c <= current && firstRunnable.Some? && firstRunnable.value <= c
    {
      var j :| 0 <= j < |ids| && ids[j] == c;
    }
    return firstRunnable;
  }

  /** The round-robin rule leaves no freedom: two answers that both satisfy
      it are the same answer. */
  lemma RoundRobinChoiceIsUnique(ids: seq<nat>, canResume: nat -> bool, current: nat, a: Option<nat>, b: Option<nat>)
    requires IsRoundRobinChoice(ids, canResume, current, a)
    requires IsRoundRobinChoice(ids, canResume, current, b)
    ensures a == b
  {
    if a.Some? && b.Some? {
      if a.value > current || b.value > current {
        assert a.value > current && b.value > current;
        assert a.value <= b.value && b.value <= a.value;
      } else {
        assert a.value <= b.value && b.value <= a.value;
      }
    }
  }

  /** Applies the caller's `can_resume` to the process stored under an ID. */
  function ResumableIn<P>(tasks: map<nat, P>, canResume: P -> bool): (f: nat -> bool)
    ensures forall id :: id in tasks ==> f(id) == canResume(tasks[id])
    ensures forall id :: id !in tasks ==> !f(id)
  {
    id => id in tasks && canResume(tasks[id])
  }

  class TaskTable<P> {
    /** `TASK_MAP`: process by ID. */
    var tasks: map<nat, P>
    /** The keys of `tasks` in the map's iteration order (ascending). */
    var ids: seq<nat>
    /** `CURRENT_ID`. */
    var current: nat
    /** The next value of the `NEXT_ID` generator. */
    var nextId: nat

    ghost predicate Valid()
      reads this
    {
      && StrictlyIncreasing(ids)
      && (forall id :: id in ids <==> id in tasks)
      && (forall id :: id in tasks ==> id < nextId)
    }

    /** `initialize`: the idle task is inserted under ID 0, which is also the
        initial `CURRENT_ID`; the ID generator then hands out 1, 2, ... */
    constructor Initialize(idle: P)
      ensures Valid()
      ensures tasks == map[0 := idle] && ids == [0] && current == 0 && nextId == 1
    {
      tasks := map[0 := idle];
      ids := [0];
      current := 0;
      nextId := 1;
    }

    /** `find_next_running_process` over this table. */
    method FindNext(canResume: P -> bool) returns (next: Option<nat>)
      requires Valid()
      ensures IsRoundRobinChoice(ids, ResumableIn(tasks, canResume), current, next)
      ensures next.Some? ==> next.value in tasks && next.value != current && canResume(tasks[next.value])
    {
      next := FindNextRunningProcess(ids, ResumableIn(tasks, canResume), current);
    }

    /** `yield_coop`: switch to the chosen process, or stay put when the
        chooser has nothing. Only the current ID changes; the register and
        stack switch itself is hardware state outside this model. */
    method YieldCoop(canResume: P -> bool)
      requires Valid()
      modifies this`current
      ensures Valid()
      ensures IsRoundRobinChoice(ids, ResumableIn(tasks, canResume), old(current),
                                 if current == old(current) then None else Some(current))
      ensures current != old(current) ==> current in tasks && canResume(tasks[current])
    {
      var next := FindNext(canResume);
      match next {
        case Some(id) => current := id;
        case None =>
      }
    }

    /** `NEXT_ID.next()`. */
    method NextId() returns (id: nat)
      modifies this`nextId
      ensures id == old(nextId) && nextId == old(nextId) + 1
    {
      id := nextId;
      nextId := nextId + 1;
    }

    /** `fork`: build the child from the current process (with
        `create_fork`, which also receives the new ID and the tick count) and
        insert it under a freshly generated ID, which is returned. Exactly one
        key is added; every existing entry is untouched. The source panics
        when the current process is missing, hence the precondition. */
    method Fork(createFork: (P, nat, U32) -> P, currentTicks: U32) returns (childId: nat)
      requires Valid() && current in tasks
      modifies this`tasks, this`ids, this`nextId
      ensures Valid()
      ensures childId == old(nextId) && childId !in old(tasks)
      ensures nextId == old(nextId) + 1
      ensures tasks == old(tasks)[childId := createFork(old(tasks)[current], childId, currentTicks)]
      ensures tasks.Keys == old(tasks).Keys + {childId}
      ensures ids == old(ids) + [childId]
    {
      childId := NextId();
      assert forall i :: 0 <= i < |ids| ==> ids[i] in tasks;
      var child := createFork(tasks[current], childId, currentTicks);
      tasks := tasks[childId := child];
      ids := ids + [childId];
    }

    /** `update_timeouts`: every process receives the elapsed time; the set
        of processes does not change. */
    method UpdateTimeouts(updateTimeouts: (P, nat) -> P, deltaMs: nat)
      requires Valid()
      modifies this`tasks
      ensures Valid()
      ensures tasks.Keys == old(tasks).Keys
      ensures forall id :: id in tasks ==> tasks[id] == updateTimeouts(old(tasks)[id], deltaMs)
    {
      var k := 0;
      while k < |ids|
        invariant 0 <= k <= |ids|
        invariant tasks.Keys == old(tasks).Keys
        invariant forall i :: 0 <= i < |ids| ==>
          tasks[ids[i]] == if i < k then updateTimeouts(old(tasks)[ids[i]], deltaMs) else old(tasks)[ids[i]]
      {
        tasks := tasks[ids[k] := updateTimeouts(tasks[ids[k]], deltaMs)];
        k := k + 1;
      }
      forall id | id in tasks
        ensures tasks[id] == updateTimeouts(old(tasks)[id], deltaMs)
      {
        var j :| 0 <= j < |ids| && ids[j] == id;
      }
    }
  }

  /** First and last kernel-space directory slots that a fork copies
      (`0x300..0x3ff`, the upper bound excluded), and the slot that maps the
      directory onto itself. */
  const KERNEL_FIRST: nat := 0x300
  const KERNEL_END: nat := 0x3ff
  const SELF_SLOT: nat := 1023

  /** `fork_page_directory`, run on the fresh directory frame (allocated by
      the caller and mapped at a scratch address): zero it, make the last
      slot point to the frame itself, and copy each kernel-space slot that is
      present in the current directory. Every user-space slot stays empty. */
  method ForkPageDirectory(current: seq<PageEntry>, directoryFrame: nat, directory: array<PageEntry>)
    returns (reference: nat)
    requires |current| == TABLE_ENTRIES && directory.Length == TABLE_ENTRIES
    modifies directory
    ensures reference == directoryFrame
    ensures directory[SELF_SLOT] == MappedEntry(directoryFrame)
    ensures forall i :: KERNEL_FIRST <= i < KERNEL_END ==>
      directory[i] == if current[i].present then MappedEntry(current[i].address) else ZERO_ENTRY
    ensures forall i :: 0 <= i < KERNEL_FIRST ==> directory[i] == ZERO_ENTRY
  {
    for i := 0 to TABLE_ENTRIES
      invariant forall j :: 0 <= j < i ==> directory[j] == ZERO_ENTRY
    {
      directory[i] := ZERO_ENTRY;
    }
    directory[SELF_SLOT] := MappedEntry(directoryFrame);
    for entry := KERNEL_FIRST to KERNEL_END
      invariant directory[SELF_SLOT] == MappedEntry(directoryFrame)
      invariant forall j :: 0 <= j < KERNEL_FIRST ==> directory[j] == ZERO_ENTRY
      invariant forall j :: KERNEL_FIRST <= j < KERNEL_END ==>
        directory[j] == if j < entry && current[j].present then MappedEntry(current[j].address) else ZERO_ENTRY
    {
      if current[entry].present {
        directory[entry] := MappedEntry(current[entry].address);
      }
    }
    reference := directoryFrame;
  }
}
