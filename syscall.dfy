/** The system-call dispatcher of `interrupts/syscall.rs`: the call number
    in `eax` selects a kernel service, whose answer is written back into the
    saved `eax`. The services themselves (`exec`, `file` and `fs`), the
    translation of errors to codes, and reading strings out of user memory
    are outside this model and arrive as the `Kernel` oracles; their side
    effects are not modelled, only the values they hand back. */
module Syscall {
  import opened Common

  /** `SavedRegisters` in the order the entry stub pushes them. */
  datatype Registers = Registers(edi: U32, esi: U32, ebp: U32, ebx: U32, edx: U32, ecx: U32, eax: U32)

  /** The kernel's error kinds; only the two named here matter to the
      dispatcher, the rest are told apart by a tag. */
  datatype SystemError = Unknown | UnsupportedCommand | OtherError(tag: nat)

  datatype Outcome<+T> = Success(value: T) | Failure(error: SystemError)

  /** The services the dispatcher calls, as the values they return.
      `stringAt(p)` is the string that the `StringPtr` at user address `p`
      describes. */
  datatype Kernel = Kernel(
    toCode: SystemError -> U32,
    stringAt: U32 -> string,
    fork: U32,
    getPid: U32,
    execPath: (string, string, U32) -> Outcome<()>,
    waitPid: U32 -> U32,
    openPath: string -> Outcome<U32>,
    close: U32 -> Outcome<()>,
    read: (U32, U32, U32) -> Outcome<U32>,
    write: (U32, U32, U32) -> Outcome<U32>,
    dup: (U32, U32) -> Outcome<U32>,
    ioctl: (U32, U32, U32) -> Outcome<U32>,
    pipe: Outcome<(U32, U32)>)

  /** Call numbers that are accepted and do nothing: `brk`, `raise`,
      `send_signal`, the file calls 0x14 to 0x1c (`unlink` .. `getcwd`) and
      the filesystem calls 0x30 to 0x33 (`register` .. `unmount`). */
  predicate IsStub(number: U32) {
    number == 0x4 || number == 0x7 || number == 0x8 || 0x14 <= number <= 0x1c || 0x30 <= number <= 0x33
  }

  /** Call numbers that are accepted but answer nothing in `eax`: `exit`
      (which does not return to the caller), `sleep` and `yield`. */
  predicate IsSilent(number: U32) {
    number == 0x0 || number == 0x5 || number == 0x6
  }

  /** Every call number the dispatcher knows. */
  predicate IsKnown(number: U32) {
    IsStub(number) || IsSilent(number) || number in {0x1, 0x2, 0x3, 0x9, 0x10, 0x11, 0x12, 0x13, 0x1d, 0x1e, 0x1f, 0xffff}
  }

  /** The `eax` answer for a call that reports success as `ok` and failure
      as the error's code. */
  function Answer<T>(outcome: Outcome<T>, ok: T -> U32, k: Kernel): U32 {
    match outcome
    case Success(v) => ok(v)
    case Failure(e) => k.toCode(e)
  }

  /** The argument string of `exec`: empty when `ecx` is the null pointer. */
  function ExecArgument(registers: Registers, k: Kernel): string {
    if registers.ecx == 0 then "" else k.stringAt(registers.ecx)
  }

  /** The new `eax` after the call selected by `registers.eax`. */
  function NewEax(registers: Registers, k: Kernel): (eax: U32)
    ensures IsStub(registers.eax) || IsSilent(registers.eax) ==> eax == registers.eax
    ensures !IsKnown(registers.eax) ==> eax == k.toCode(Unknown)
    ensures registers.eax == 0xffff ==> eax == 0
  {
    var number := registers.eax;
    if number == 0x1 then k.fork
    else if number == 0x2 then
      Answer(k.execPath(k.stringAt(registers.ebx), ExecArgument(registers, k), registers.edx), _ => 0, k)
    else if number == 0x3 then k.getPid
    else if number == 0x9 then k.waitPid(registers.ebx)
    else if number == 0x10 then Answer(k.openPath(k.stringAt(registers.ebx)), h => h, k)
    else if number == 0x11 then Answer(k.close(registers.eax), _ => 0, k)
    else if number == 0x12 then Answer(k.read(registers.ebx, registers.ecx, registers.edx), n => n, k)
    else if number == 0x13 then Answer(k.write(registers.ebx, registers.ecx, registers.edx), n => n, k)
    else if number == 0x1d then
      match k.dup(registers.ebx, registers.ecx)
      case Success(handle) => handle
      case Failure(_) => 0xffff_ffff
    else if number == 0x1e then
      match k.ioctl(registers.ebx, registers.ecx, registers.edx)
      case Success(value) => value
      case Failure(_) => k.toCode(UnsupportedCommand)
    else if number == 0x1f then
      match k.pipe
      case Success(_) => 0
      case Failure(_) => 0xffff_ffff
    else if number == 0xffff then 0
    else if IsStub(number) || IsSilent(number) then number
    else k.toCode(Unknown)
  }

  /** `_syscall_inner` as a function of the saved registers: only `eax`
      can change; stubs and the calls without an answer change nothing; an
      unknown number answers the code of `SystemError::Unknown`. */
  function Dispatch(registers: Registers, k: Kernel): (after: Registers)
    ensures after.edi == registers.edi && after.esi == registers.esi && after.ebp == registers.ebp
    ensures after.ebx == registers.ebx && after.edx == registers.edx && after.ecx == registers.ecx
    ensures IsStub(registers.eax) || IsSilent(registers.eax) ==> after == registers
    ensures !IsKnown(registers.eax) ==> after.eax == k.toCode(Unknown)
    ensures registers.eax == 0xffff ==> after.eax == 0
  {
    registers.(eax := NewEax(registers, k))
  }

  /** `open`, `close`, `read`, `write` and `exec` answer their success value
      (the handle, 0, the byte count, 0) or the code of their error; `close`
      takes its handle from `eax`, which at that point holds the call
      number 0x11; `exec` with a null argument pointer passes the empty
      string. */
  lemma FileCallAnswers(registers: Registers, k: Kernel)
    ensures registers.eax == 0x10 ==>
      Dispatch(registers, k).eax == match k.openPath(k.stringAt(registers.ebx))
        case Success(handle) => handle
        case Failure(e) => k.toCode(e)
    ensures registers.eax == 0x11 ==>
      Dispatch(registers, k).eax == match k.close(0x11)
        case Success(_) => 0
        case Failure(e) => k.toCode(e)
    ensures registers.eax == 0x12 ==>
      Dispatch(registers, k).eax == match k.read(registers.ebx, registers.ecx, registers.edx)
        case Success(count) => count
        case Failure(e) => k.toCode(e)
    ensures registers.eax == 0x13 ==>
      Dispatch(registers, k).eax == match k.write(registers.ebx, registers.ecx, registers.edx)
        case Success(count) => count
        case Failure(e) => k.toCode(e)
    ensures registers.eax == 0x2 && registers.ecx == 0 ==>
      Dispatch(registers, k).eax == match k.execPath(k.stringAt(registers.ebx), "", registers.edx)
        case Success(_) => 0
        case Failure(e) => k.toCode(e)
    ensures registers.eax == 0x2 && registers.ecx != 0 ==>
      Dispatch(registers, k).eax == match k.execPath(k.stringAt(registers.ebx), k.stringAt(registers.ecx), registers.edx)
        case Success(_) => 0
        case Failure(e) => k.toCode(e)
  {
  }

  /** `dup` and `pipe` answer 0xffffffff on any failure, whatever the error;
      `ioctl` answers the code of `UnsupportedCommand` on any failure. */
  lemma FailureAnswers(registers: Registers, k: Kernel)
    ensures registers.eax == 0x1d && k.dup(registers.ebx, registers.ecx).Failure? ==>
      Dispatch(registers, k).eax == 0xffff_ffff
    ensures registers.eax == 0x1f && k.pipe.Failure? ==> Dispatch(registers, k).eax == 0xffff_ffff
    ensures registers.eax == 0x1e && k.ioctl(registers.ebx, registers.ecx, registers.edx).Failure? ==>
      Dispatch(registers, k).eax == k.toCode(UnsupportedCommand)
  {
  }

  /** The saved registers as the assembly stub leaves them on the kernel
      stack, updated in place. */
  class SavedRegisters {
    var edi: U32
    var esi: U32
    var ebp: U32
    var ebx: U32
    var edx: U32
    var ecx: U32
    var eax: U32

    function Values(): Registers
      reads this
    {
      Registers(edi, esi, ebp, ebx, edx, ecx, eax)
    }

    constructor (values: Registers)
      ensures Values() == values
    {
      edi, esi, ebp, ebx := values.edi, values.esi, values.ebp, values.ebx;
      edx, ecx, eax := values.edx, values.ecx, values.eax;
    }
  }

  /** `_syscall_inner`: one `match` on the call number that writes the answer
      into the saved `eax`. */
  method SyscallInner(registers: SavedRegisters, k: Kernel)
    modifies registers`eax
    ensures registers.Values() == Dispatch(old(registers.Values()), k)
  {
    var eax := registers.eax;
    if eax == 0x0 {
      // exit(ebx): the process ends; nothing is answered
    } else if eax == 0x1 {
      registers.eax := k.fork;
    } else if eax == 0x2 {
      var pathStr := k.stringAt(registers.ebx);
      var argStr := if registers.ecx == 0 then "" else k.stringAt(registers.ecx);
      var result := match k.execPath(pathStr, argStr, registers.edx)
        case Success(_) => 0
        case Failure(e) => k.toCode(e);
      registers.eax := result;
    } else if eax == 0x3 {
      registers.eax := k.getPid;
    } else if eax == 0x5 || eax == 0x6 {
      // sleep(ebx) and yield: nothing is answered
    } else if eax == 0x9 {
      // the exit status is written through the pointer in ecx, which is not modelled
      registers.eax := k.waitPid(registers.ebx);
    } else if eax == 0x10 {
      var result := match k.openPath(k.stringAt(registers.ebx))
        case Success(handle) => handle
        case Failure(e) => k.toCode(e);
      registers.eax := result;
    } else if eax == 0x11 {
      var handle := registers.eax;
      var result := match k.close(handle)
        case Success(_) => 0
        case Failure(e) => k.toCode(e);
      registers.eax := result;
    } else if eax == 0x12 {
      var result := match k.read(registers.ebx, registers.ecx, registers.edx)
        case Success(bytesRead) => bytesRead
        case Failure(e) => k.toCode(e);
      registers.eax := result;
    } else if eax == 0x13 {
      var result := match k.write(registers.ebx, registers.ecx, registers.edx)
        case Success(bytesWritten) => bytesWritten
        case Failure(e) => k.toCode(e);
      registers.eax := result;
    } else if eax == 0x1d {
      var newHandle := match k.dup(registers.ebx, registers.ecx)
        case Success(handle) => handle
        case Failure(_) => 0xffff_ffff;
      registers.eax := newHandle;
    } else if eax == 0x1e {
      var result := match k.ioctl(registers.ebx, registers.ecx, registers.edx)
        case Success(value) => value
        case Failure(_) => k.toCode(UnsupportedCommand);
      registers.eax := result;
    } else if eax == 0x1f {
      // the two handles are written through the pointers in ebx and ecx, which is not modelled
      var result := match k.pipe
        case Success(_) => 0
        case Failure(_) => 0xffff_ffff;
      registers.eax := result;
    } else if IsStub(eax) {
      // accepted, not implemented
    } else if eax == 0xffff {
      registers.eax := 0;
    } else {
      registers.eax := k.toCode(Unknown);
    }
  }
}
