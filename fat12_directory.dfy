/** FAT12 directory entries (`filesystems/fat12/directory.rs`): the packed
    32-byte on-disk record described in the "FAT Directory Structure"
    section of Microsoft's FAT32 File System Specification, version 1.03,
    its attribute and emptiness tests, name copying and matching, and the
    bounded iterator over a directory's entries. */
module Fat12Directory {
  import opened Common

  type U16 = x: int | 0 <= x < 0x1_0000

  /** `DIR_Name`: eight name bytes followed by three extension bytes. */
  type ShortName = s: seq<Byte> | |s| == 8 witness [0, 0, 0, 0, 0, 0, 0, 0]
  type Extension = s: seq<Byte> | |s| == 3 witness [0, 0, 0]

  /** `DIR_Attr` bits. */
  const ATTR_VOLUME_ID: bv8 := 0x08
  const ATTR_DIRECTORY: bv8 := 0x10

  const ENTRY_SIZE: nat := 32

  datatype FileType = File | Directory | VolumeLabel

  /** One directory entry, field by field in on-disk order. Times and dates
      are the packed 16-bit FAT forms. */
  datatype DirectoryEntry = DirectoryEntry(
    fileName: ShortName,
    ext: Extension,
    attributes: Byte,
    nonstandardAttributes: Byte,
    fineCreateTime: Byte,
    creationTime: U16,
    creationDate: U16,
    accessDate: U16,
    extendedAttributes: U16,
    lastModifyTime: U16,
    lastModifyDate: U16,
    firstFileCluster: U16,
    byteSize: U32)
  {
    /** `get_file_type`: the volume-label bit wins over the directory bit. */
    function GetFileType(): (t: FileType)
      ensures t == VolumeLabel <==> (attributes / 8) % 2 == 1
      ensures t == Directory <==> (attributes / 8) % 2 == 0 && (attributes / 16) % 2 == 1
      ensures t == File <==> (attributes / 8) % 2 == 0 && (attributes / 16) % 2 == 0
    {
      var bits := attributes as bv8;
      if bits & ATTR_VOLUME_ID == ATTR_VOLUME_ID then VolumeLabel
      else if bits & ATTR_DIRECTORY == ATTR_DIRECTORY then Directory
      else File
    }

    /** `is_empty`: a first name byte of 0 marks the end of the directory,
        that is, the record on disk starts with a zero byte. */
    predicate IsEmpty(): (r: bool)
      ensures r <==> Encode(this)[0] == 0
    {
      fileName[0] == 0
    }
  }

  function LittleEndian16(x: U16): (bytes: seq<Byte>)
    ensures |bytes| == 2
  {
    [x % 0x100, x / 0x100]
  }

  function FromLittleEndian16(bytes: seq<Byte>): U16
    requires |bytes| == 2
  {
    bytes[0] as int + 0x100 * bytes[1] as int
  }

  function LittleEndian32(x: U32): (bytes: seq<Byte>)
    ensures |bytes| == 4
  {
    LittleEndian16(x % 0x1_0000) + LittleEndian16(x / 0x1_0000)
  }

  function FromLittleEndian32(bytes: seq<Byte>): U32
    requires |bytes| == 4
  {
    FromLittleEndian16(bytes[..2]) as int + 0x1_0000 * FromLittleEndian16(bytes[2..]) as int
  }

  lemma LittleEndian16RoundTrip(x: U16)
    ensures FromLittleEndian16(LittleEndian16(x)) == x
  {
  }

  lemma FromLittleEndian16RoundTrip(bytes: seq<Byte>)
    requires |bytes| == 2
    ensures LittleEndian16(FromLittleEndian16(bytes)) == bytes
  {
  }

  lemma LittleEndian32RoundTrip(x: U32)
    ensures FromLittleEndian32(LittleEndian32(x)) == x
  {
    var b := LittleEndian32(x);
    assert b[..2] == LittleEndian16(x % 0x1_0000);
    assert b[2..] == LittleEndian16(x / 0x1_0000);
    LittleEndian16RoundTrip(x % 0x1_0000);
    LittleEndian16RoundTrip(x / 0x1_0000);
  }

  lemma FromLittleEndian32RoundTrip(bytes: seq<Byte>)
    requires |bytes| == 4
    ensures LittleEndian32(FromLittleEndian32(bytes)) == bytes
  {
    FromLittleEndian16RoundTrip(bytes[..2]);
    FromLittleEndian16RoundTrip(bytes[2..]);
    var lo: int := FromLittleEndian16(bytes[..2]);
    var hi: int := FromLittleEndian16(bytes[2..]);
    assert (lo + 0x1_0000 * hi) % 0x1_0000 == lo;
    assert (lo + 0x1_0000 * hi) / 0x1_0000 == hi;
    assert bytes == bytes[..2] + bytes[2..];
  }

  /** The first 14 bytes of the record: name, extension and the three
      single-byte fields. */
  function EncodeHead(e: DirectoryEntry): (bytes: seq<Byte>)
    ensures |bytes| == 14
  {
    e.fileName + e.ext + [e.attributes, e.nonstandardAttributes, e.fineCreateTime]
  }

  /** Bytes 14..28 of the record: the seven 16-bit fields, little-endian. */
  function EncodeStamps(e: DirectoryEntry): (bytes: seq<Byte>)
    ensures |bytes| == 14
  {
    LittleEndian16(e.creationTime) + LittleEndian16(e.creationDate)
    + LittleEndian16(e.accessDate) + LittleEndian16(e.extendedAttributes)
    + LittleEndian16(e.lastModifyTime) + LittleEndian16(e.lastModifyDate)
    + LittleEndian16(e.firstFileCluster)
  }

  /** The packed record as it lies on disk: 8 + 3 + 1 + 1 + 1 + 2 + 2 + 2
      + 2 + 2 + 2 + 2 + 4 = 32 bytes, multi-byte fields little-endian. */
  function Encode(e: DirectoryEntry): (bytes: seq<Byte>)
    ensures |bytes| == ENTRY_SIZE
    ensures bytes[..8] == e.fileName && bytes[8..11] == e.ext
    ensures bytes[11] == e.attributes
  {
    EncodeHead(e) + EncodeStamps(e) + LittleEndian32(e.byteSize)
  }

  /** Reading 32 bytes of memory as a `DirectoryEntry` (`at_address`). */
  function Decode(bytes: seq<Byte>): (e: DirectoryEntry)
    requires |bytes| == ENTRY_SIZE
    ensures e.fileName == bytes[..8] && e.ext == bytes[8..11] && e.attributes == bytes[11]
    ensures e.IsEmpty() <==> bytes[0] == 0
  {
    DirectoryEntry(
      bytes[..8], bytes[8..11], bytes[11], bytes[12], bytes[13],
      FromLittleEndian16(bytes[14..16]), FromLittleEndian16(bytes[16..18]),
      FromLittleEndian16(bytes[18..20]), FromLittleEndian16(bytes[20..22]),
      FromLittleEndian16(bytes[22..24]), FromLittleEndian16(bytes[24..26]),
      FromLittleEndian16(bytes[26..28]), FromLittleEndian32(bytes[28..32]))
  }

  /** Each 16-bit field reads back from its two bytes of `EncodeStamps`. */
  lemma DecodeStamps(e: DirectoryEntry)
    ensures var t := EncodeStamps(e);
      && FromLittleEndian16(t[0..2]) == e.creationTime
      && FromLittleEndian16(t[2..4]) == e.creationDate
      && FromLittleEndian16(t[4..6]) == e.accessDate
      && FromLittleEndian16(t[6..8]) == e.extendedAttributes
      && FromLittleEndian16(t[8..10]) == e.lastModifyTime
      && FromLittleEndian16(t[10..12]) == e.lastModifyDate
      && FromLittleEndian16(t[12..14]) == e.firstFileCluster
  {
    var t := EncodeStamps(e);
    assert t[0..2] == LittleEndian16(e.creationTime);
    assert t[2..4] == LittleEndian16(e.creationDate);
    assert t[4..6] == LittleEndian16(e.accessDate);
    assert t[6..8] == LittleEndian16(e.extendedAttributes);
    assert t[8..10] == LittleEndian16(e.lastModifyTime);
    assert t[10..12] == LittleEndian16(e.lastModifyDate);
    assert t[12..14] == LittleEndian16(e.firstFileCluster);
    LittleEndian16RoundTrip(e.creationTime);
    LittleEndian16RoundTrip(e.creationDate);
    LittleEndian16RoundTrip(e.accessDate);
    LittleEndian16RoundTrip(e.extendedAttributes);
    LittleEndian16RoundTrip(e.lastModifyTime);
    LittleEndian16RoundTrip(e.lastModifyDate);
    LittleEndian16RoundTrip(e.firstFileCluster);
  }

  /** Reading back a written entry gives the same entry. */
  lemma DecodeEncode(e: DirectoryEntry)
    ensures Decode(Encode(e)) == e
  {
    var b, head, stamps := Encode(e), EncodeHead(e), EncodeStamps(e);
    assert b[..14] == head;
    assert b[14..28] == stamps;
    assert b[28..32] == LittleEndian32(e.byteSize);
    forall i | 0 <= i < 7
      ensures b[14 + 2 * i..16 + 2 * i] == stamps[2 * i..2 * i + 2]
    {
    }
    DecodeStamps(e);
    LittleEndian32RoundTrip(e.byteSize);
  }

  /** Every 32-byte record is some entry: writing back what was read gives
      the same bytes. */
  lemma EncodeDecode(bytes: seq<Byte>)
    requires |bytes| == ENTRY_SIZE
    ensures Encode(Decode(bytes)) == bytes
  {
    var e := Decode(bytes);
    FromLittleEndian16RoundTrip(bytes[14..16]);
    FromLittleEndian16RoundTrip(bytes[16..18]);
    FromLittleEndian16RoundTrip(bytes[18..20]);
    FromLittleEndian16RoundTrip(bytes[20..22]);
    FromLittleEndian16RoundTrip(bytes[22..24]);
    FromLittleEndian16RoundTrip(bytes[24..26]);
    FromLittleEndian16RoundTrip(bytes[26..28]);
    FromLittleEndian32RoundTrip(bytes[28..32]);
    assert bytes == bytes[..8] + bytes[8..11] + [bytes[11], bytes[12], bytes[13]]
      + bytes[14..16] + bytes[16..18] + bytes[18..20] + bytes[20..22]
      + bytes[22..24] + bytes[24..26] + bytes[26..28] + bytes[28..32];
  }

  /** `copy_name`: the eight name bytes into the caller's buffer. */
  method CopyName(e: DirectoryEntry, buffer: array<Byte>)
    requires buffer.Length == 8
    modifies buffer
    ensures buffer[..] == e.fileName
  {
    for i := 0 to 8
      invariant forall j :: 0 <= j < i ==> buffer[j] == e.fileName[j]
    {
      buffer[i] := e.fileName[i];
    }
  }

  /** `copy_ext`: the three extension bytes into the caller's buffer. */
  method CopyExt(e: DirectoryEntry, buffer: array<Byte>)
    requires buffer.Length == 3
    modifies buffer
    ensures buffer[..] == e.ext
  {
    for i := 0 to 3
      invariant forall j :: 0 <= j < i ==> buffer[j] == e.ext[j]
    {
      buffer[i] := e.ext[i];
    }
  }

  /** `get_full_name`: name then extension, eleven bytes, with no dot. */
  method GetFullName(e: DirectoryEntry, buffer: array<Byte>)
    requires buffer.Length == 11
    modifies buffer
    ensures buffer[..8] == e.fileName && buffer[8..] == e.ext
    ensures buffer[..] == Encode(e)[..11]
  {
    for i := 0 to 8
      invariant forall j :: 0 <= j < i ==> buffer[j] == e.fileName[j]
    {
      buffer[i] := e.fileName[i];
    }
    for i := 0 to 3
      invariant forall j :: 0 <= j < 8 ==> buffer[j] == e.fileName[j]
      invariant forall j :: 0 <= j < i ==> buffer[8 + j] == e.ext[j]
    {
      buffer[8 + i] := e.ext[i];
    }
    assert buffer[..] == e.fileName + e.ext;
  }

  /** `name_matches_search`: every one of the eight name positions and the
      three extension positions must pass the character test
      (`name_character_matches`, supplied by the caller); the first failing
      position ends the search. */
  method NameMatchesSearch(e: DirectoryEntry, name: ShortName, ext: Extension, characterMatches: (Byte, Byte) -> bool)
    returns (matches: bool)
    ensures matches <==>
      (forall i :: 0 <= i < 8 ==> characterMatches(e.fileName[i], name[i])) &&
      (forall i :: 0 <= i < 3 ==> characterMatches(e.ext[i], ext[i]))
  {
    for i := 0 to 8
      invariant forall j :: 0 <= j < i ==> characterMatches(e.fileName[j], name[j])
    {
      if !characterMatches(e.fileName[i], name[i]) {
        return false;
      }
    }
    for i := 0 to 3
      invariant forall j :: 0 <= j < i ==> characterMatches(e.ext[j], ext[j])
    {
      if !characterMatches(e.ext[i], ext[i]) {
        return false;
      }
    }
    return true;
  }

  /** `DirectoryEntryIterator`: walks the entries stored from `start` on
      (`entryAt(k)` is the entry `k` records past `start`), at most
      `maxCount` of them, and stops at the first empty entry. */
  class DirectoryEntryIterator {
    const entryAt: nat -> DirectoryEntry
    const maxCount: nat
    var current: nat
    /** The entries handed out so far. */
    ghost var yielded: seq<DirectoryEntry>

    ghost predicate Valid()
      reads this
    {
      && current <= maxCount
      && |yielded| == current
      && forall k :: 0 <= k < current ==> yielded[k] == entryAt(k) && !entryAt(k).IsEmpty()
    }

    /** No further entry will be handed out. */
    ghost predicate Exhausted()
      reads this
    {
      current >= maxCount || entryAt(current).IsEmpty()
    }

    constructor (entryAt: nat -> DirectoryEntry, maxCount: nat)
      ensures Valid() && this.entryAt == entryAt && this.maxCount == maxCount
      ensures current == 0 && yielded == []
    {
      this.entryAt := entryAt;
      this.maxCount := maxCount;
      current := 0;
      yielded := [];
    }

    /** `next`: the entry at `current` if the bound is not reached and the
        entry is not empty, in which case `current` advances; otherwise
        `None`, with nothing changed, so every later call is `None` too. */
    method Next() returns (r: Option<DirectoryEntry>)
      requires Valid()
      modifies this
      ensures Valid()
      ensures old(Exhausted()) ==> r == None && current == old(current) && yielded == old(yielded) && Exhausted()
      ensures !old(Exhausted()) ==>
        && r == Some(entryAt(old(current)))
        && current == old(current) + 1
        && yielded == old(yielded) + [entryAt(old(current))]
      ensures r.Some? ==> !r.value.IsEmpty()
    {
      if current >= maxCount {
        return None;
      }
      var entry := entryAt(current);
      if entry.IsEmpty() {
        return None;
      }
      current := current + 1;
      yielded := yielded + [entry];
      return Some(entry);
    }
  }
}
