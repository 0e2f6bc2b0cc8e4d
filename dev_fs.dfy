/** The device filesystem of `filesystems/dev/mod.rs` (`DEV:`): opening a
    device by name, the table from local handle to device number, and the
    per-operation success and failure rules. The device registry and the
    drivers live elsewhere and arrive as the `Devices` oracles. */
module DevFs {
  import opened Common

  const BACKSLASH: Byte := 0x5c
  const SPACE: Byte := 0x20
  /** Device names are eight bytes, padded with spaces. */
  const NAME_LENGTH: nat := 8

  /** A seek request; its variants are not part of this model. */
  type SeekMethod

  /** The collaborators the device filesystem calls: the registry's lookup
      of a device number by its 8-byte name, whether a device has a driver,
      and the driver operations (`open` accepting a handle, and the results
      of `read`, `write` and `seek`). */
  datatype Devices = Devices(
    numberByName: seq<Byte> -> Option<U32>,
    hasDriver: U32 -> bool,
    driverOpen: (U32, nat) -> bool,
    driverRead: (U32, nat, nat) -> Result<nat>,
    driverWrite: (U32, nat, seq<Byte>) -> Result<nat>,
    driverSeek: (U32, nat, SeekMethod) -> Result<nat>)

  /** The path with at most one leading backslash removed. */
  function LocalPath(path: seq<Byte>): (local: seq<Byte>)
    ensures path == local || path == [BACKSLASH] + local
    ensures |path| > 0 && path[0] == BACKSLASH ==> |local| == |path| - 1
    ensures (|path| == 0 || path[0] != BACKSLASH) ==> local == path
  {
    if |path| > 0 && path[0] == BACKSLASH then path[1..] else path
  }

  /** The lookup name for a path: its first `min(8, |path|)` bytes, padded
      with spaces to eight bytes. */
  function PaddedName(path: seq<Byte>): (name: seq<Byte>)
    ensures |name| == NAME_LENGTH
    ensures forall i :: 0 <= i < NAME_LENGTH && i < |path| ==> name[i] == path[i]
    ensures forall i :: |path| <= i < NAME_LENGTH ==> name[i] == SPACE
  {
    if |path| >= NAME_LENGTH then path[..NAME_LENGTH]
    else path + seq(NAME_LENGTH - |path|, _ => SPACE)
  }

  /** A path of at most eight bytes is kept whole at the front of its
      lookup name, and only spaces follow it. */
  lemma PaddedNameKeepsShortNames(path: seq<Byte>)
    requires |path| <= NAME_LENGTH
    ensures PaddedName(path)[..|path|] == path
    ensures PaddedName(path) == path + seq(NAME_LENGTH - |path|, _ => SPACE)
  {
  }

  /** The loop in `open` that fills the space-initialised 8-byte buffer. */
  method DeviceName(path: seq<Byte>) returns (name: seq<Byte>)
    ensures name == PaddedName(path)
  {
    var buffer := new Byte[NAME_LENGTH](_ => SPACE);
    var i := 0;
    while i < NAME_LENGTH && i < |path|
      invariant 0 <= i <= NAME_LENGTH && i <= |path|
      invariant forall j :: 0 <= j < i ==> buffer[j] == path[j]
      invariant forall j :: i <= j < NAME_LENGTH ==> buffer[j] == SPACE
    {
      buffer[i] := path[i];
      i := i + 1;
    }
    name := buffer[..];
  }

  /** `count` empty slots. */
  function NonePadding(count: nat): (s: seq<Option<U32>>)
    ensures |s| == count && forall i :: 0 <= i < count ==> s[i] == None
  {
    seq(count, _ => None)
  }

  class DevFileSystem {
    /** `handle_allocator`: the next local handle it gives out. */
    var nextHandle: nat
    /** `handle_to_device`: the device behind each local handle, if any. */
    var handleToDevice: seq<Option<U32>>

    /** No handle is recorded beyond those given out so far. */
    ghost predicate Valid()
      reads this
    {
      |handleToDevice| <= nextHandle
    }

    constructor ()
      ensures Valid() && nextHandle == 0 && handleToDevice == []
    {
      nextHandle := 0;
      handleToDevice := [];
    }

    /** `get_device_for_handle`: the stored slot, or `None` for a handle at
        or beyond the table's end. */
    function GetDeviceForHandle(handle: nat): (r: Option<U32>)
      reads this
      ensures handle >= |handleToDevice| ==> r == None
      ensures handle < |handleToDevice| ==> r == handleToDevice[handle]
    {
      if handle < |handleToDevice| then handleToDevice[handle] else None
    }

    /** `HandleAllocator::get_next`. */
    method AllocateHandle() returns (handle: nat)
      modifies this`nextHandle
      ensures handle == old(nextHandle) && nextHandle == old(nextHandle) + 1
    {
      handle := nextHandle;
      nextHandle := nextHandle + 1;
    }

    /** `open`. An unknown name fails before a handle is taken. A known
        device takes a handle; if it has no driver or its driver refuses the
        handle, the call fails and the table is untouched (the handle stays
        used). Otherwise the table is padded with empty slots up to the
        handle and the device number is appended, so the handle's slot holds
        it. */
    method Open(path: seq<Byte>, devices: Devices) returns (r: Result<nat>)
      requires Valid()
      modifies this
      ensures Valid()
      ensures var number := devices.numberByName(PaddedName(LocalPath(path)));
        && (number.None? ==>
              r == Err && nextHandle == old(nextHandle) && handleToDevice == old(handleToDevice))
        && (number.Some? ==> nextHandle == old(nextHandle) + 1)
        && (number.Some? && !(devices.hasDriver(number.value) && devices.driverOpen(number.value, old(nextHandle))) ==>
              r == Err && handleToDevice == old(handleToDevice))
        && (number.Some? && devices.hasDriver(number.value) && devices.driverOpen(number.value, old(nextHandle)) ==>
              && r == Ok(old(nextHandle))
              && handleToDevice == old(handleToDevice) + NonePadding(old(nextHandle) - |old(handleToDevice)|) + [number]
              && |handleToDevice| == r.value + 1
              && GetDeviceForHandle(r.value) == number)
    {
      var localPath := LocalPath(path);
      var name := DeviceName(localPath);
      match devices.numberByName(name) {
        case Some(number) =>
          var handle := AllocateHandle();
          if !devices.hasDriver(number) {
            return Err;
          }
          if !devices.driverOpen(number, handle) {
            return Err;
          }
          ghost var before := handleToDevice;
          while |handleToDevice| < handle
            invariant |before| <= |handleToDevice| <= handle
            invariant nextHandle == handle + 1
            invariant handleToDevice == before + NonePadding(|handleToDevice| - |before|)
          {
            handleToDevice := handleToDevice + [None];
          }
          handleToDevice := handleToDevice + [Some(number)];
          return Ok(handle);
        case None =>
          return Err;
      }
    }

    /** `read`: fails for a handle without a device or a device without a
        driver; otherwise the driver's answer. */
    function Read(handle: nat, bufferLength: nat, devices: Devices): (r: Result<nat>)
      reads this
      ensures GetDeviceForHandle(handle).None? ==> r == Err
      ensures r.Ok? ==> exists number ::
        GetDeviceForHandle(handle) == Some(number) && devices.hasDriver(number) && r == devices.driverRead(number, handle, bufferLength)
      ensures GetDeviceForHandle(handle).Some? && devices.hasDriver(GetDeviceForHandle(handle).value) ==>
        r == devices.driverRead(GetDeviceForHandle(handle).value, handle, bufferLength)
    {
      match GetDeviceForHandle(handle)
      case Some(number) =>
        if !devices.hasDriver(number) then Err else devices.driverRead(number, handle, bufferLength)
      case None => Err
    }

    /** `write`: as `read`. */
    function Write(handle: nat, buffer: seq<Byte>, devices: Devices): (r: Result<nat>)
      reads this
      ensures GetDeviceForHandle(handle).None? ==> r == Err
      ensures r.Ok? ==> exists number ::
        GetDeviceForHandle(handle) == Some(number) && devices.hasDriver(number) && r == devices.driverWrite(number, handle, buffer)
      ensures GetDeviceForHandle(handle).Some? && devices.hasDriver(GetDeviceForHandle(handle).value) ==>
        r == devices.driverWrite(GetDeviceForHandle(handle).value, handle, buffer)
    {
      match GetDeviceForHandle(handle)
      case Some(number) =>
        if !devices.hasDriver(number) then Err else devices.driverWrite(number, handle, buffer)
      case None => Err
    }

    /** `seek`: as `read`. */
    function Seek(handle: nat, offset: SeekMethod, devices: Devices): (r: Result<nat>)
      reads this
      ensures GetDeviceForHandle(handle).None? ==> r == Err
      ensures r.Ok? ==> exists number ::
        GetDeviceForHandle(handle) == Some(number) && devices.hasDriver(number) && r == devices.driverSeek(number, handle, offset)
      ensures GetDeviceForHandle(handle).Some? && devices.hasDriver(GetDeviceForHandle(handle).value) ==>
        r == devices.driverSeek(GetDeviceForHandle(handle).value, handle, offset)
    {
      match GetDeviceForHandle(handle)
      case Some(number) =>
        if !devices.hasDriver(number) then Err else devices.driverSeek(number, handle, offset)
      case None => Err
    }

    /** `close`, `open_dir` and `read_dir` are not supported: they always
        fail and change nothing. */
    function Close(handle: nat): (r: Result<()>)
      ensures r == Err
    {
      Err
    }

    function OpenDir(path: seq<Byte>): (r: Result<nat>)
      ensures r == Err
    {
      Err
    }

    function ReadDir(handle: nat, index: nat): (r: Result<()>)
      ensures r == Err
    {
      Err
    }

    /** `ioctl`: command 0 identifies the device behind the handle; every
        other command fails. */
    function Ioctl(handle: nat, command: U32, arg: U32): (r: Result<U32>)
      reads this
      ensures command != 0 ==> r == Err
      ensures command == 0 && GetDeviceForHandle(handle).None? ==> r == Err
      ensures command == 0 && GetDeviceForHandle(handle).Some? ==> r == Ok(GetDeviceForHandle(handle).value)
    {
      if command == 0 then
        match GetDeviceForHandle(handle)
        case Some(number) => Ok(number)
        case None => Err
      else Err
    }

    /** `dup`, as written: an unmapped handle fails; otherwise a new handle
        is taken and the device is appended at the table's current end,
        without the padding that `open` does. */
    method Dup(handle: nat) returns (r: Result<nat>)
      modifies this
      ensures old(Valid()) ==> Valid()
      ensures old(GetDeviceForHandle(handle)).None? ==>
        r == Err && nextHandle == old(nextHandle) && handleToDevice == old(handleToDevice)
      ensures old(GetDeviceForHandle(handle)).Some? ==>
        && r == Ok(old(nextHandle)) && nextHandle == old(nextHandle) + 1
        && handleToDevice == old(handleToDevice) + [old(GetDeviceForHandle(handle))]
    {
      var device := GetDeviceForHandle(handle);
      match device {
        case Some(number) =>
          var newHandle := AllocateHandle();
          handleToDevice := handleToDevice + [Some(number)];
          return Ok(newHandle);
        case None =>
          return Err;
      }
    }

    /** `dup` as evidently intended: the table is padded up to the new handle
        as in `open`, so the new handle's slot holds the duplicated device. */
    method DupPadded(handle: nat) returns (r: Result<nat>)
      requires Valid()
      modifies this
      ensures Valid()
      ensures old(GetDeviceForHandle(handle)).None? ==>
        r == Err && nextHandle == old(nextHandle) && handleToDevice == old(handleToDevice)
      ensures old(GetDeviceForHandle(handle)).Some? ==>
        && r == Ok(old(nextHandle)) && nextHandle == old(nextHandle) + 1
        && handleToDevice == old(handleToDevice) + NonePadding(old(nextHandle) - |old(handleToDevice)|)
                             + [old(GetDeviceForHandle(handle))]
        && GetDeviceForHandle(r.value) == GetDeviceForHandle(handle)
    {
      var device := GetDeviceForHandle(handle);
      match device {
        case Some(number) =>
          var newHandle := AllocateHandle();
          ghost var before := handleToDevice;
          while |handleToDevice| < newHandle
            invariant |before| <= |handleToDevice| <= newHandle
            invariant nextHandle == newHandle + 1
            invariant handleToDevice == before + NonePadding(|handleToDevice| - |before|)
          {
            handleToDevice := handleToDevice + [None];
          }
          handleToDevice := handleToDevice + [Some(number)];
          return Ok(newHandle);
        case None =>
          return Err;
      }
    }
  }

  /** A device named `COM1` whose driver accepts every handle except 1. */
  function Com1RejectingHandle1(): Devices {
    Devices(
      name => if name == [0x43, 0x4f, 0x4d, 0x31, SPACE, SPACE, SPACE, SPACE] then Some(1) else None,
      number => number == 1,
      (number, handle) => handle != 1,
      (number, handle, length) => Err,
      (number, handle, buffer) => Err,
      (number, handle, offset) => Err)
  }

  /** The path `\COM1`. */
  const COM1_PATH: seq<Byte> := [BACKSLASH, 0x43, 0x4f, 0x4d, 0x31]

  /** `dup` as written, after an `open` whose driver refused its handle: the
      first open takes handle 0, the refused one takes handle 1 without
      growing the table, and `dup(0)` answers handle 2 but stores the device
      in slot 1, so handle 2 maps to no device. */
  method DupAfterRefusedOpen() returns (duplicate: Result<nat>, deviceOfDuplicate: Option<U32>)
    ensures duplicate == Ok(2) && deviceOfDuplicate == None
  {
    var fs := new DevFileSystem();
    var devices := Com1RejectingHandle1();
    var first := fs.Open(COM1_PATH, devices);
    assert first == Ok(0);
    var refused := fs.Open(COM1_PATH, devices);
    assert refused == Err;
    duplicate := fs.Dup(0);
    deviceOfDuplicate := fs.GetDeviceForHandle(2);
  }

  /** The same sequence with the corrected `dup`: handle 2 maps to the
      duplicated device. */
  method DupPaddedAfterRefusedOpen() returns (duplicate: Result<nat>, deviceOfDuplicate: Option<U32>)
    ensures duplicate == Ok(2) && deviceOfDuplicate == Some(1)
  {
    var fs := new DevFileSystem();
    var devices := Com1RejectingHandle1();
    var first := fs.Open(COM1_PATH, devices);
    assert first == Ok(0);
    var refused := fs.Open(COM1_PATH, devices);
    assert refused == Err;
    duplicate := fs.DupPadded(0);
    deviceOfDuplicate := fs.GetDeviceForHandle(2);
  }
}
